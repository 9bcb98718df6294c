/** The parameters a plugin's auth is registered with: which provider definition supplies them. */
module AuthParams {
  import opened Wrappers
  import opened Sorting

  datatype AuthRef = AuthRef(provider: string, params: Option<string>)

  datatype Definition = Definition(id: string, owner: string, auth: Option<AuthRef>)

  predicate IdLe(a: Definition, b: Definition) {
    LexLe(a.id, b.id)
  }

  /** The plugin's definition names this auth. */
  predicate Refers(plugin: string, auth: string, d: Definition) {
    d.owner == plugin && d.auth.Some? && d.auth.value.provider == auth
  }

  /** The parameters of the first definition that names the auth, even when it has none. */
  function FirstParams(plugin: string, auth: string, definitions: seq<Definition>): Option<string> {
    if definitions == [] then None
    else if Refers(plugin, auth, definitions[0]) then definitions[0].auth.value.params
    else FirstParams(plugin, auth, definitions[1..])
  }

  /** The plugin's definition names the auth, and every other such has a greater id. */
  ghost predicate First(plugin: string, auth: string, definitions: seq<Definition>, d: Definition) {
    && d.owner == plugin && d.auth.Some? && d.auth.value.provider == auth
    && forall e :: e in definitions && e != d && e.owner == plugin && e.auth.Some? && e.auth.value.provider == auth ==>
         d.id != e.id && Smaller(d.id, e.id)
  }

  lemma FirstWins(plugin: string, auth: string, definitions: seq<Definition>, d: Definition)
    requires d in definitions && First(plugin, auth, definitions, d)
    ensures FirstParams(plugin, auth, Sort(IdLe, definitions)) == d.auth.value.params
  {
    hide Sort, Smaller, FirstParams;
    forall e | e in definitions && Refers(plugin, auth, e) && e != d ensures !IdLe(e, d) {
      LexIsSmaller(d.id, e.id);
      LexTotal(d.id, e.id);
    }
    SmallestIdSupplies(plugin, auth, definitions, d);
  }

  lemma NoneNamed(plugin: string, auth: string, definitions: seq<Definition>)
    ensures (forall d :: d in definitions ==> !(d.owner == plugin && d.auth.Some? && d.auth.value.provider == auth)) ==>
              FirstParams(plugin, auth, Sort(IdLe, definitions)).None?
  {
    hide Sort;
    SortElements(IdLe, definitions);
    if forall d :: d in definitions ==> !Refers(plugin, auth, d) {
      NoneRefers(plugin, auth, Sort(IdLe, definitions));
    }
  }

  lemma {:induction false} NoneRefers(plugin: string, auth: string, definitions: seq<Definition>)
    requires forall d :: d in definitions ==> !Refers(plugin, auth, d)
    ensures FirstParams(plugin, auth, definitions).None?
  {
    if definitions != [] {
      NoneRefers(plugin, auth, definitions[1..]);
    }
  }

  method AuthParamsFor(plugin: string, definitions: seq<Definition>, auth: string) returns (params: Option<string>)
    ensures params == FirstParams(plugin, auth, Sort(IdLe, definitions))
    // Of the plugin's definitions that name the auth, the one with the smallest id decides; without any there are none.
    ensures
      (forall d :: d in definitions ==> !(d.owner == plugin && d.auth.Some? && d.auth.value.provider == auth)) ==> params.None?
    ensures forall d :: d in definitions && First(plugin, auth, definitions, d) ==> params == d.auth.value.params
  {
    NoneNamed(plugin, auth, definitions);
    forall d | d in definitions && First(plugin, auth, definitions, d)
      ensures FirstParams(plugin, auth, Sort(IdLe, definitions)) == d.auth.value.params
    {
      FirstWins(plugin, auth, definitions, d);
    }
    hide Sort, First;
    var sorted := Sort(IdLe, definitions);
    for i := 0 to |sorted|
      invariant FirstParams(plugin, auth, sorted[i..]) == FirstParams(plugin, auth, sorted)
    {
      assert sorted[i..][1..] == sorted[i + 1..];
      if sorted[i].owner != plugin {
        continue;
      }
      if sorted[i].auth.Some? && sorted[i].auth.value.provider == auth {
        return sorted[i].auth.value.params;
      }
    }
    params := None;
  }

  lemma IdOrder()
    ensures Comparator(IdLe)
  {
    forall x: Definition, y: Definition ensures IdLe(x, y) || IdLe(y, x) {
      LexTotal(x.id, y.id);
    }
    forall x: Definition, y: Definition, z: Definition | IdLe(x, y) && IdLe(y, z) ensures IdLe(x, z) {
      LexTransitive(x.id, y.id, z.id);
    }
  }

  lemma {:induction false} FirstOfSorted(plugin: string, auth: string, sorted: seq<Definition>, winner: Definition)
    requires Comparator(IdLe) && Sorted(IdLe, sorted)
    requires winner in sorted && Refers(plugin, auth, winner)
    requires forall d :: d in sorted && Refers(plugin, auth, d) && d != winner ==> !IdLe(d, winner)
    ensures FirstParams(plugin, auth, sorted) == winner.auth.value.params
  {
    if sorted[0] == winner {
    } else {
      assert IdLe(sorted[0], winner) by {
        var i :| 0 <= i < |sorted| && sorted[i] == winner;
      }
      assert winner in sorted[1..];
      FirstOfSorted(plugin, auth, sorted[1..], winner);
    }
  }

  /** The definition with the smallest id supplies the parameters, in whatever order the manager lists them. */
  lemma SmallestIdSupplies(plugin: string, auth: string, definitions: seq<Definition>, winner: Definition)
    requires winner in definitions && Refers(plugin, auth, winner)
    requires forall d :: d in definitions && Refers(plugin, auth, d) && d != winner ==> !IdLe(d, winner)
    ensures FirstParams(plugin, auth, Sort(IdLe, definitions)) == winner.auth.value.params
  {
    hide IdLe, Sort, Refers;
    IdOrder();
    SortSorted(IdLe, definitions);
    SortElements(IdLe, definitions);
    FirstOfSorted(plugin, auth, Sort(IdLe, definitions), winner);
  }

  /** Definitions of one plugin that agree on the parameters of a shared auth decide them, whichever comes first. */
  lemma SharedParamsAgree(plugin: string, auth: string, definitions: seq<Definition>, params: Option<string>)
    requires exists d :: d in definitions && Refers(plugin, auth, d)
    requires forall d :: d in definitions && Refers(plugin, auth, d) ==> d.auth.value.params == params
    ensures FirstParams(plugin, auth, Sort(IdLe, definitions)) == params
  {
    hide Sort;
    SortElements(IdLe, definitions);
    FirstAgrees(plugin, auth, Sort(IdLe, definitions), params);
  }

  lemma {:induction false} FirstAgrees(plugin: string, auth: string, definitions: seq<Definition>, params: Option<string>)
    requires exists d :: d in definitions && Refers(plugin, auth, d)
    requires forall d :: d in definitions && Refers(plugin, auth, d) ==> d.auth.value.params == params
    ensures FirstParams(plugin, auth, definitions) == params
  {
    if !Refers(plugin, auth, definitions[0]) {
      var d :| d in definitions && Refers(plugin, auth, d);
      assert d in definitions[1..];
      FirstAgrees(plugin, auth, definitions[1..], params);
    }
  }
}
