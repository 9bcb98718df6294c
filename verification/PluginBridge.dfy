/**
 Activation and deactivation of plugins: what `sync_all` leaves in the host's
 registries, what `unsync_all` takes out, over any run of both.

 Only the keys of the registries are modelled; which of two values wins under one
 key is not.
 */
module PluginBridge {
  import opened Wrappers

  datatype Kind =
    | Workflow | Tool | Trigger | Prompt | Fragment | ToolDescription | NodeTemplate | AgentTemplate
    | ToolType | Handler | Codec | Provider | Auth
    | Advisor | Analyzer | RetrievalAdvisor | Encoding | Snapshot

  /** A key in one registry, of the host or of the contribution manager. */
  datatype Slot = Slot(kind: Kind, name: string)

  /**
   A contribution: its plugin, the id the contributed item carries itself, whether
   its validation accepts it, the fragments a prompt composes, the auth a provider names.
   */
  datatype Contribution = Contribution(owner: string, id: string, valid: bool, fragments: set<string>, auth: Option<string>)

  /** The contribution manager: every registered contribution under the name it was registered with. */
  type Manager = map<Slot, Contribution>

  const BUNDLE: seq<Kind> := [Workflow, Tool, Trigger, Prompt, Fragment, ToolDescription, NodeTemplate, AgentTemplate]

  predicate Bundled(kind: Kind) {
    kind.Workflow? || kind.Tool? || kind.Trigger? || kind.Prompt? || kind.Fragment?
    || kind.ToolDescription? || kind.NodeTemplate? || kind.AgentTemplate?
  }

  /** Registries that trim the names they are given. */
  predicate Trimming(kind: Kind) {
    kind.Advisor? || kind.Analyzer? || kind.RetrievalAdvisor? || kind.Encoding? || kind.Snapshot?
  }

  function TrimStart(s: string): string {
    if s != "" && s[0] in " \t\n\r" then TrimStart(s[1..]) else s
  }

  function TrimEnd(s: string): string {
    if s != "" && s[|s| - 1] in " \t\n\r" then TrimEnd(s[..|s| - 1]) else s
  }

  function Trim(s: string): string {
    TrimEnd(TrimStart(s))
  }

  predicate Blank(s: string) {
    forall c :: c in s ==> c in " \t\n\r"
  }

  ghost predicate TrimmedFrom(s: string, front: string, trimmed: string, back: string) {
    && s == front + trimmed + back && Blank(front) && Blank(back)
    && (trimmed != "" ==> trimmed[0] !in " \t\n\r" && trimmed[|trimmed| - 1] !in " \t\n\r")
  }

  lemma {:induction false} TrimStartIs(s: string) returns (front: string)
    ensures s == front + TrimStart(s) && Blank(front)
    ensures TrimStart(s) != "" ==> TrimStart(s)[0] !in " \t\n\r"
  {
    front := "";
    if s != "" && s[0] in " \t\n\r" {
      var rest := TrimStartIs(s[1..]);
      front := [s[0]] + rest;
    }
  }

  lemma {:induction false} TrimEndIs(s: string) returns (back: string)
    ensures s == TrimEnd(s) + back && Blank(back)
    ensures TrimEnd(s) != "" ==> TrimEnd(s)[|TrimEnd(s)| - 1] !in " \t\n\r" && TrimEnd(s)[0] == s[0]
  {
    back := "";
    if s != "" && s[|s| - 1] in " \t\n\r" {
      var rest := TrimEndIs(s[..|s| - 1]);
      back := rest + [s[|s| - 1]];
    }
  }

  /** Trimming takes the blanks at both ends and nothing else. */
  lemma TrimIs(s: string)
    ensures exists front, back :: TrimmedFrom(s, front, Trim(s), back)
  {
    var front := TrimStartIs(s);
    var back := TrimEndIs(TrimStart(s));
    assert front + (Trim(s) + back) == front + Trim(s) + back;
    assert TrimmedFrom(s, front, Trim(s), back);
  }

  function Owned(m: Manager, plugin: string, kind: Kind): set<Slot> {
    set s | s in m && s.kind == kind && m[s].owner == plugin
  }

  /** The host key a contribution is registered under. */
  function Landing(s: Slot, c: Contribution): Slot {
    if Bundled(s.kind) then Slot(s.kind, c.id)
    else if s.kind.Analyzer? then Slot(s.kind, Trim(c.id))
    else if Trimming(s.kind) then Slot(s.kind, Trim(s.name))
    else s
  }

  /** The host key deactivation removes for it. */
  function Removal(s: Slot, c: Contribution): Slot {
    if Bundled(s.kind) then Slot(s.kind, c.id)
    else if Trimming(s.kind) then Slot(s.kind, Trim(s.name))
    else s
  }

  /** Registration is by the item's own id here and by its registered name there. */
  predicate SameKeys(s: Slot, c: Contribution) {
    && (s.kind.Tool? ==> c.id == s.name)
    && (s.kind.Analyzer? ==> Trim(c.id) == Trim(s.name))
  }

  predicate Consistent(m: Manager, plugin: string) {
    forall s :: s in m && m[s].owner == plugin ==> SameKeys(s, m[s])
  }

  /** Validation passes, given what the host holds already; an analyzer without a name of its own is passed over. */
  predicate Accepted(s: Slot, c: Contribution, slots: set<Slot>) {
    match s.kind
    case Trigger => c.valid
    case Fragment => c.valid
    case Prompt => c.valid && forall f :: f in c.fragments ==> Slot(Fragment, f) in slots
    case Analyzer => Trim(c.id) != ""
    case _ => true
  }

  /** A key already taken, or a snapshot policy of the wrong shape. */
  predicate Refused(s: Slot, c: Contribution, unique: bool, slots: set<Slot>) {
    (unique && Removal(s, c) in slots) || (s.kind.Snapshot? && !c.valid)
  }

  /** The key is taken on the host or by another entry of the plugin, or the policy has the wrong shape. */
  ghost predicate Hindered(m: Manager, plugin: string, s: Slot, unique: bool, before: set<Slot>)
    requires s in m
  {
    || (unique && (Removal(s, m[s]) in before || exists u :: u in Owned(m, plugin, s.kind) && u != s && Landing(u, m[u]) == Removal(s, m[s])))
    || (s.kind.Snapshot? && !m[s].valid)
  }

  function LandsOf(m: Manager, plugin: string, kind: Kind, slots: set<Slot>): set<Slot> {
    set s | s in Owned(m, plugin, kind) && Accepted(s, m[s], slots) :: Landing(s, m[s])
  }

  predicate AnyToolType(m: Manager) {
    exists s :: s in m && s.kind.ToolType?
  }

  /** Handlers go in for the plugin's tools as soon as any plugin has an executor. */
  function HandlersOf(m: Manager, plugin: string): set<Slot> {
    if AnyToolType(m) then set s | s in Owned(m, plugin, Tool) :: Slot(Handler, s.name) else {}
  }

  predicate IsSynced(kind: Kind, hasAuth: bool) {
    !kind.ToolType? && !kind.Handler? && (kind.Auth? ==> hasAuth)
  }

  /** Everything a complete activation registers, on a host that holds `slots`. */
  ghost predicate Lands(m: Manager, plugin: string, hasAuth: bool, slots: set<Slot>, t: Slot) {
    || t in HandlersOf(m, plugin)
    || (IsSynced(t.kind, hasAuth) && t in LandsOf(m, plugin, t.kind, slots))
  }

  /** Everything deactivation removes. */
  ghost predicate Leaves(m: Manager, plugin: string, hasAuth: bool, t: Slot) {
    || (t.kind.Handler? && exists s :: s in Owned(m, plugin, Tool) && t == Slot(Handler, m[s].id))
    || (IsSynced(t.kind, hasAuth) && exists s :: s in Owned(m, plugin, t.kind) && t == Removal(s, m[s]))
  }

  /** A provider of the plugin names an auth the plugin does not register. */
  predicate Dangling(m: Manager, plugin: string, hasAuth: bool) {
    exists s :: s in Owned(m, plugin, Provider) && m[s].auth.Some? &&
      !(hasAuth && Slot(Auth, m[s].auth.value) in Owned(m, plugin, Auth))
  }

  // ------------------------------------------------- kind by kind, in plain words

  predicate Mine(m: Manager, plugin: string, kind: Kind, s: Slot) {
    s in m && s.kind == kind && m[s].owner == plugin
  }

  /**
   What activation brings: items of the bundle under their own ids, triggers and
   fragments if valid, prompts if valid and composed of fragments the host held; codecs,
   providers and auths under their registered names; analyzers under their own trimmed
   names, advisors and the like under their registered ones; handlers for tools.
   */
  ghost predicate Brought(m: Manager, plugin: string, hasAuth: bool, before: set<Slot>, t: Slot) {
    if t.kind in {Workflow, Tool, ToolDescription, NodeTemplate, AgentTemplate} then
      exists s :: Mine(m, plugin, t.kind, s) && m[s].id == t.name
    else if t.kind in {Trigger, Fragment} then
      exists s :: Mine(m, plugin, t.kind, s) && m[s].id == t.name && m[s].valid
    else if t.kind.Prompt? then
      exists s :: Mine(m, plugin, t.kind, s) && m[s].id == t.name && m[s].valid && forall f :: f in m[s].fragments ==> Slot(Fragment, f) in before
    else if t.kind in {Codec, Provider} || (t.kind.Auth? && hasAuth) then
      Mine(m, plugin, t.kind, t)
    else if t.kind.Analyzer? then
      t.name != "" && exists s :: Mine(m, plugin, t.kind, s) && Trim(m[s].id) == t.name
    else if t.kind in {Advisor, RetrievalAdvisor, Encoding, Snapshot} then
      exists s :: Mine(m, plugin, t.kind, s) && Trim(s.name) == t.name
    else if t.kind.Handler? then
      (exists x :: x in m && x.kind.ToolType?) && exists s :: Mine(m, plugin, Tool, s) && s.name == t.name
    else false
  }

  /** What deactivation takes. */
  ghost predicate TakenOut(m: Manager, plugin: string, hasAuth: bool, t: Slot) {
    if t.kind in {Workflow, Tool, Trigger, Prompt, Fragment, ToolDescription, NodeTemplate, AgentTemplate} then
      exists s :: Mine(m, plugin, t.kind, s) && m[s].id == t.name
    else if t.kind in {Codec, Provider} || (t.kind.Auth? && hasAuth) then
      Mine(m, plugin, t.kind, t)
    else if t.kind in {Analyzer, Advisor, RetrievalAdvisor, Encoding, Snapshot} then
      exists s :: Mine(m, plugin, t.kind, s) && Trim(s.name) == t.name
    else if t.kind.Handler? then
      exists s :: Mine(m, plugin, Tool, s) && m[s].id == t.name
    else false
  }

  lemma LandsIsBrought(m: Manager, plugin: string, hasAuth: bool, before: set<Slot>, t: Slot)
    ensures Lands(m, plugin, hasAuth, before, t) <==> Brought(m, plugin, hasAuth, before, t)
  {
    hide Trim;
    if t in LandsOf(m, plugin, t.kind, before) {
      var s :| s in Owned(m, plugin, t.kind) && Accepted(s, m[s], before) && Landing(s, m[s]) == t;
      assert Mine(m, plugin, t.kind, s);
    }
    if t in HandlersOf(m, plugin) {
      var s :| s in Owned(m, plugin, Tool) && Slot(Handler, s.name) == t;
      assert Mine(m, plugin, Tool, s);
    }
    forall s | Mine(m, plugin, t.kind, s) && Accepted(s, m[s], before) ensures Landing(s, m[s]) in LandsOf(m, plugin, t.kind, before) {
      assert s in Owned(m, plugin, t.kind);
    }
    forall s | Mine(m, plugin, Tool, s) && AnyToolType(m) ensures Slot(Handler, s.name) in HandlersOf(m, plugin) {
      assert s in Owned(m, plugin, Tool);
    }
  }

  lemma LeavesIsTakenOut(m: Manager, plugin: string, hasAuth: bool, t: Slot)
    ensures Leaves(m, plugin, hasAuth, t) <==> TakenOut(m, plugin, hasAuth, t)
  {
    hide Trim;
    assert forall s, kind :: s in Owned(m, plugin, kind) <==> Mine(m, plugin, kind, s);
  }

  /** The registries of advisors, analyzers, retrieval advisors and encodings do not share names. */
  predicate Exclusive(kind: Kind) {
    kind in {Advisor, Analyzer, RetrievalAdvisor, Encoding}
  }

  /** The host has none of the exclusive names, and the plugin's snapshot policies have the right shape. */
  ghost predicate Welcome(m: Manager, plugin: string, before: set<Slot>) {
    forall s :: s in m && m[s].owner == plugin ==>
      && (Exclusive(s.kind) ==> Slot(s.kind, Trim(s.name)) !in before)
      && (s.kind.Snapshot? ==> m[s].valid)
  }

  /** The entry goes by that exclusive name. */
  predicate GoesBy(s: Slot, c: Contribution, name: string) {
    name == Trim(if s.kind.Analyzer? then c.id else s.name)
  }

  /**
   What else may stop an activation: a name taken on the host or twice by the plugin, a
   misshapen snapshot policy; the gateway may refuse codecs and providers.
   */
  ghost predicate Hampered(m: Manager, plugin: string, before: set<Slot>) {
    exists s :: s in m && m[s].owner == plugin &&
      (|| s.kind.Codec? || s.kind.Provider?
       || (Exclusive(s.kind) && Slot(s.kind, Trim(s.name)) in before)
       || (Exclusive(s.kind) && exists u :: Mine(m, plugin, s.kind, u) && u != s && GoesBy(u, m[u], Trim(s.name)))
       || (s.kind.Snapshot? && !m[s].valid))
  }

  lemma WelcomeIs(m: Manager, plugin: string, before: set<Slot>)
    ensures Welcome(m, plugin, before) <==>
            && NoneTaken(m, plugin, Advisor, true, before) && NoneTaken(m, plugin, Analyzer, true, before)
            && NoneTaken(m, plugin, RetrievalAdvisor, true, before) && NoneTaken(m, plugin, Encoding, true, before)
            && NoneTaken(m, plugin, Snapshot, false, before)
  {
    hide Trim;
    forall s | s in m && m[s].owner == plugin ensures s in Owned(m, plugin, s.kind) {
    }
  }

  lemma HamperedIs(m: Manager, plugin: string, before: set<Slot>)
    ensures Owned(m, plugin, Codec) != {} || Owned(m, plugin, Provider) != {} ==> Hampered(m, plugin, before)
    ensures forall kind :: Exclusive(kind) && SomeHindered(m, plugin, kind, true, before) ==> Hampered(m, plugin, before)
    ensures SomeHindered(m, plugin, Snapshot, false, before) ==> Hampered(m, plugin, before)
  {
    hide Trim;
    if s :| s in Owned(m, plugin, Codec) + Owned(m, plugin, Provider) {
      assert s in m && m[s].owner == plugin;
    }
    forall kind | Exclusive(kind) && SomeHindered(m, plugin, kind, true, before) ensures Hampered(m, plugin, before) {
      var s :| s in Owned(m, plugin, kind) && Hindered(m, plugin, s, true, before);
      HinderedHampers(m, plugin, s, before);
    }
  }

  lemma HinderedHampers(m: Manager, plugin: string, s: Slot, before: set<Slot>)
    requires s in m && m[s].owner == plugin && Exclusive(s.kind) && Hindered(m, plugin, s, true, before)
    ensures Hampered(m, plugin, before)
  {
    hide Trim;
    if u :| u in Owned(m, plugin, s.kind) && u != s && Landing(u, m[u]) == Removal(s, m[s]) {
      assert Mine(m, plugin, s.kind, u) && GoesBy(u, m[u], Trim(s.name));
    }
  }

  lemma SyncedBrings(m: Manager, plugin: string, hasAuth: bool, before: set<Slot>, now: set<Slot>, ok: bool)
    requires Synced(m, plugin, hasAuth, before, now, ok)
    ensures before <= now && forall t :: t in now ==> t in before || Brought(m, plugin, hasAuth, before, t)
    ensures ok ==> forall t :: Brought(m, plugin, hasAuth, before, t) ==> t in now
  {
    hide Lands, Brought;
    forall t ensures Lands(m, plugin, hasAuth, before, t) <==> Brought(m, plugin, hasAuth, before, t) {
      LandsIsBrought(m, plugin, hasAuth, before, t);
    }
  }

  class Bridge {
    /** The keys of every host registry. */
    var slots: set<Slot>
    /** The gateway may come without an auth registry. */
    const hasAuth: bool

    constructor (slots: set<Slot>, hasAuth: bool)
      ensures this.slots == slots && this.hasAuth == hasAuth
    {
      this.slots := slots;
      this.hasAuth := hasAuth;
    }

    /** Register what one kind has; rejected items are passed over. */
    method Install(plugin: string, m: Manager, kind: Kind)
      modifies this
      ensures slots == old(slots) + LandsOf(m, plugin, kind, old(slots))
    {
      ghost var before := slots;
      var todo := Owned(m, plugin, kind);
      while todo != {}
        invariant todo <= Owned(m, plugin, kind)
        invariant slots == before + set s | s in Owned(m, plugin, kind) - todo && Accepted(s, m[s], before) :: Landing(s, m[s])
        decreases todo
      {
        var s :| s in todo;
        if Accepted(s, m[s], slots) {
          slots := slots + {Landing(s, m[s])};
        }
        todo := todo - {s};
      }
    }

    /**
     Register one kind whose registry refuses: keys already taken (`unique`), or for
     reasons of its own (`external`). Snapshot policies must be valid.
     */
    method InstallStrictly(plugin: string, m: Manager, kind: Kind, unique: bool, external: bool) returns (ok: bool)
      requires !Bundled(kind)
      modifies this
      ensures old(slots) <= slots <= old(slots) + LandsOf(m, plugin, kind, old(slots))
      ensures ok ==> slots == old(slots) + LandsOf(m, plugin, kind, old(slots))
      ensures ok && unique ==> forall s :: s in Owned(m, plugin, kind) ==> Removal(s, m[s]) !in old(slots)
      ensures ok && kind.Snapshot? ==> forall s :: s in Owned(m, plugin, kind) ==> m[s].valid
      ensures !ok ==> Owned(m, plugin, kind) != {}
      ensures !ok ==> external || (exists s :: s in Owned(m, plugin, kind) && Hindered(m, plugin, s, unique, old(slots)))
    {
      ghost var before := slots;
      var todo := Owned(m, plugin, kind);
      ok := true;
      while todo != {}
        invariant ok && todo <= Owned(m, plugin, kind)
        invariant slots == before + set s | s in Owned(m, plugin, kind) - todo && Accepted(s, m[s], before) :: Landing(s, m[s])
        invariant unique ==> forall s :: s in Owned(m, plugin, kind) - todo ==> Removal(s, m[s]) !in before
        invariant kind.Snapshot? ==> forall s :: s in Owned(m, plugin, kind) - todo ==> m[s].valid
        decreases todo
      {
        var s :| s in todo;
        var refused := *;
        if (external && refused) || Refused(s, m[s], unique, slots) {
          ok := false;
          assert s in Owned(m, plugin, kind);
          assert Refused(s, m[s], unique, slots) ==> Hindered(m, plugin, s, unique, before);
          return;
        }
        if Accepted(s, m[s], slots) {
          slots := slots + {Landing(s, m[s])};
        }
        todo := todo - {s};
      }
    }

    method InstallHandlers(plugin: string, m: Manager)
      modifies this
      ensures slots == old(slots) + HandlersOf(m, plugin)
    {
      var types := set s | s in m && s.kind.ToolType?;
      ghost var before := slots;
      assert types != {} ==> AnyToolType(m) by {
        if types != {} {
          var t :| t in types;
        }
      }
      assert AnyToolType(m) ==> types != {} by {
        if AnyToolType(m) {
          var t :| t in m && t.kind.ToolType?;
          assert t in types;
        }
      }
      var tools := Owned(m, plugin, Tool);
      var left := types;
      while left != {}
        invariant left <= types
        invariant slots == before + if left == types then {} else set s | s in tools :: Slot(Handler, s.name)
        decreases left
      {
        var t :| t in left;
        var todo := tools;
        ghost var outer := slots;
        while todo != {}
          invariant todo <= tools
          invariant slots == outer + set s | s in tools - todo :: Slot(Handler, s.name)
          decreases todo
        {
          var s :| s in todo;
          slots := slots + {Slot(Handler, s.name)};
          todo := todo - {s};
        }
        left := left - {t};
      }
    }

    /** `sync_auth`: register the auths, then check every provider's reference. */
    method SyncAuth(plugin: string, m: Manager) returns (ok: bool)
      modifies this
      ensures slots == old(slots) + if hasAuth then LandsOf(m, plugin, Auth, old(slots)) else {}
      ensures ok <==> !Dangling(m, plugin, hasAuth)
    {
      var registered: set<Slot> := {};
      if hasAuth {
        Install(plugin, m, Auth);
        registered := Owned(m, plugin, Auth);
      }
      var todo := Owned(m, plugin, Provider);
      while todo != {}
        invariant todo <= Owned(m, plugin, Provider)
        invariant forall s :: s in Owned(m, plugin, Provider) - todo && m[s].auth.Some? ==> Slot(Auth, m[s].auth.value) in registered
        decreases todo
      {
        var s :| s in todo;
        if m[s].auth.Some? && Slot(Auth, m[s].auth.value) !in registered {
          return false;
        }
        todo := todo - {s};
      }
      ok := true;
    }

    /** One more kind of the bundle. */
    method InstallNext(plugin: string, m: Manager, kind: Kind, ghost before: set<Slot>, ghost kinds: set<Kind>)
      requires Between(m, plugin, before, slots, kinds)
      requires kind.Prompt? ==> Fragment !in kinds
      modifies this
      ensures Between(m, plugin, before, slots, kinds + {kind})
    {
      ghost var now := slots;
      SameVerdicts(m, plugin, kind, before, now, kinds);
      Install(plugin, m, kind);
      LandsKind(m, plugin, kind, before);
    }

    /** One more kind of the gateway, the engine or retrieval. */
    method InstallNextStrictly(plugin: string, m: Manager, kind: Kind, unique: bool, external: bool, ghost before: set<Slot>, ghost kinds: set<Kind>)
      returns (ok: bool)
      requires Between(m, plugin, before, slots, kinds)
      requires !Bundled(kind) && !kind.ToolType? && !kind.Handler? && !kind.Auth? && kind !in kinds
      modifies this
      ensures ok ==> Between(m, plugin, before, slots, kinds + {kind})
      ensures AtMost(m, plugin, before, slots, kinds + {kind})
      ensures ok ==> NoneTaken(m, plugin, kind, unique, before)
      ensures !ok ==> Owned(m, plugin, kind) != {} && (external || SomeHindered(m, plugin, kind, unique, before))
    {
      ghost var now := slots;
      SameTaken(m, plugin, kind, before, now, kinds);
      SameVerdicts(m, plugin, kind, before, now, kinds);
      ok := InstallStrictly(plugin, m, kind, unique, external);
      LandsKind(m, plugin, kind, before);
    }

    /** Activation. A failure leaves what was registered before it. */
    method SyncAll(plugin: string, m: Manager) returns (ok: bool)
      modifies this
      ensures Synced(m, plugin, hasAuth, old(slots), slots, ok)
      // When it goes through,
      ensures Dangling(m, plugin, hasAuth) ==> !ok
      ensures ok ==> Welcome(m, plugin, old(slots))
      ensures !ok ==> Dangling(m, plugin, hasAuth) || Hampered(m, plugin, old(slots))
      // and what it brings.
      ensures old(slots) <= slots && forall t :: t in slots ==> t in old(slots) || Brought(m, plugin, hasAuth, old(slots), t)
      ensures ok ==> forall t :: Brought(m, plugin, hasAuth, old(slots), t) ==> t in slots
    {
      hide LandsOf, HandlersOf, Dangling, Between, Synced, Welcome, Hampered, Brought;
      ghost var before := slots;
      InstallHandlers(plugin, m);
      NoneYet(m, plugin, before, slots);
      ghost var kinds: set<Kind> := {};
      InstallNext(plugin, m, Workflow, before, kinds);
      kinds := kinds + {Workflow};
      InstallNext(plugin, m, Tool, before, kinds);
      kinds := kinds + {Tool};
      InstallNext(plugin, m, Trigger, before, kinds);
      kinds := kinds + {Trigger};
      InstallNext(plugin, m, Prompt, before, kinds);
      kinds := kinds + {Prompt};
      InstallNext(plugin, m, Fragment, before, kinds);
      kinds := kinds + {Fragment};
      InstallNext(plugin, m, ToolDescription, before, kinds);
      kinds := kinds + {ToolDescription};
      InstallNext(plugin, m, NodeTemplate, before, kinds);
      kinds := kinds + {NodeTemplate};
      InstallNext(plugin, m, AgentTemplate, before, kinds);
      kinds := kinds + {AgentTemplate};
      assert kinds == BundleKinds();
      ok := SyncGateway(plugin, m, before);
      SyncedBrings(m, plugin, hasAuth, before, slots, ok);
    }

    /** What can refuse, in order: codecs and providers, auths, advisors, retrieval. */
    method SyncGateway(plugin: string, m: Manager, ghost before: set<Slot>) returns (ok: bool)
      requires Between(m, plugin, before, slots, BundleKinds())
      modifies this
      ensures Synced(m, plugin, hasAuth, before, slots, ok)
      ensures Dangling(m, plugin, hasAuth) ==> !ok
      ensures ok ==> Welcome(m, plugin, before)
      ensures !ok ==> Dangling(m, plugin, hasAuth) || Hampered(m, plugin, before)
    {
      hide LandsOf, HandlersOf, Dangling, Between, Synced, AllSynced, IsSynced, BundleKinds, AuthKinds, AdvisorKinds, NoneTaken, SomeHindered, Welcome, Hampered;
      StageKinds(hasAuth);
      WelcomeIs(m, plugin, before);
      HamperedIs(m, plugin, before);
      StagesSynced(hasAuth);
      LastStage(hasAuth);
      ok := SyncLlm(plugin, m, before, BundleKinds());
      if !ok {
        return;
      }
      ok := SyncAuthNext(plugin, m, before, BundleKinds() + {Codec, Provider});
      if !ok {
        return;
      }
      ok := SyncAdvisors(plugin, m, before, AuthKinds(hasAuth));
      if !ok {
        return;
      }
      ok := SyncRetrieval(plugin, m, before, AdvisorKinds(hasAuth));
      if ok {
        Complete(m, plugin, hasAuth, before, slots, AdvisorKinds(hasAuth) + {Analyzer, RetrievalAdvisor, Encoding, Snapshot});
      }
    }

    method SyncLlm(plugin: string, m: Manager, ghost before: set<Slot>, ghost kinds: set<Kind>) returns (ok: bool)
      requires Between(m, plugin, before, slots, kinds)
      requires AllSynced(kinds, hasAuth)
      modifies this
      requires Codec !in kinds && Provider !in kinds
      ensures ok ==> Between(m, plugin, before, slots, kinds + {Codec, Provider})
      ensures !ok ==> Owned(m, plugin, Codec) != {} || Owned(m, plugin, Provider) != {}
      ensures Synced(m, plugin, hasAuth, before, slots, false)
    {
      hide LandsOf, HandlersOf, Between, AtMost, Synced, NoneTaken, SomeHindered;
      ok := InstallNextStrictly(plugin, m, Codec, false, true, before, kinds);
      Stops(m, plugin, hasAuth, before, slots, kinds + {Codec});
      if !ok {
        return;
      }
      ok := InstallNextStrictly(plugin, m, Provider, false, true, before, kinds + {Codec});
      assert kinds + {Codec} + {Provider} == kinds + {Codec, Provider};
      Stops(m, plugin, hasAuth, before, slots, kinds + {Codec, Provider});
    }

    method SyncAuthNext(plugin: string, m: Manager, ghost before: set<Slot>, ghost kinds: set<Kind>) returns (ok: bool)
      requires Between(m, plugin, before, slots, kinds)
      requires AllSynced(kinds, hasAuth)
      modifies this
      ensures ok <==> !Dangling(m, plugin, hasAuth)
      ensures Between(m, plugin, before, slots, WithAuth(kinds, hasAuth))
      ensures Synced(m, plugin, hasAuth, before, slots, false)
    {
      hide LandsOf, HandlersOf, Dangling, Between, Synced;
      ghost var now := slots;
      ok := SyncAuth(plugin, m);
      AuthNext(m, plugin, hasAuth, before, now, slots, kinds);
      Stops(m, plugin, hasAuth, before, slots, WithAuth(kinds, hasAuth));
    }

    method SyncAdvisors(plugin: string, m: Manager, ghost before: set<Slot>, ghost kinds: set<Kind>) returns (ok: bool)
      requires Between(m, plugin, before, slots, kinds)
      requires AllSynced(kinds, hasAuth)
      modifies this
      requires Advisor !in kinds
      ensures ok ==> Between(m, plugin, before, slots, kinds + {Advisor})
      ensures ok ==> NoneTaken(m, plugin, Advisor, true, before)
      ensures !ok ==> SomeHindered(m, plugin, Advisor, true, before)
      ensures Synced(m, plugin, hasAuth, before, slots, false)
    {
      hide LandsOf, HandlersOf, Between, AtMost, Synced, NoneTaken, SomeHindered;
      ok := InstallNextStrictly(plugin, m, Advisor, true, false, before, kinds);
      Stops(m, plugin, hasAuth, before, slots, kinds + {Advisor});
    }

    method SyncRetrieval(plugin: string, m: Manager, ghost before: set<Slot>, ghost done: set<Kind>) returns (ok: bool)
      requires Between(m, plugin, before, slots, done)
      requires AllSynced(done, hasAuth)
      modifies this
      requires Analyzer !in done && RetrievalAdvisor !in done && Encoding !in done && Snapshot !in done
      ensures ok ==> Between(m, plugin, before, slots, done + {Analyzer, RetrievalAdvisor, Encoding, Snapshot})
      ensures ok ==> NoneTaken(m, plugin, Analyzer, true, before) && NoneTaken(m, plugin, RetrievalAdvisor, true, before)
      ensures ok ==> NoneTaken(m, plugin, Encoding, true, before) && NoneTaken(m, plugin, Snapshot, false, before)
      ensures !ok ==>
        || SomeHindered(m, plugin, Analyzer, true, before) || SomeHindered(m, plugin, RetrievalAdvisor, true, before)
        || SomeHindered(m, plugin, Encoding, true, before) || SomeHindered(m, plugin, Snapshot, false, before)
      ensures Synced(m, plugin, hasAuth, before, slots, false)
    {
      hide LandsOf, HandlersOf, Between, AtMost, Synced, NoneTaken, SomeHindered;
      ghost var kinds := done;
      ok := InstallNextStrictly(plugin, m, Analyzer, true, false, before, kinds);
      kinds := kinds + {Analyzer};
      Stops(m, plugin, hasAuth, before, slots, kinds);
      if !ok {
        return;
      }
      ok := InstallNextStrictly(plugin, m, RetrievalAdvisor, true, false, before, kinds);
      kinds := kinds + {RetrievalAdvisor};
      Stops(m, plugin, hasAuth, before, slots, kinds);
      if !ok {
        return;
      }
      ok := InstallNextStrictly(plugin, m, Encoding, true, false, before, kinds);
      kinds := kinds + {Encoding};
      Stops(m, plugin, hasAuth, before, slots, kinds);
      if !ok {
        return;
      }
      ok := InstallNextStrictly(plugin, m, Snapshot, false, false, before, kinds);
      kinds := kinds + {Snapshot};
      Stops(m, plugin, hasAuth, before, slots, kinds);
      assert kinds == done + {Analyzer, RetrievalAdvisor, Encoding, Snapshot};
    }

    method RemoveKind(plugin: string, m: Manager, kind: Kind, ghost before: set<Slot>, ghost kinds: set<Kind>)
      requires Without(m, plugin, before, slots, kinds)
      modifies this
      ensures Without(m, plugin, before, slots, kinds + {kind})
    {
      ghost var now := slots;
      var todo := Owned(m, plugin, kind);
      while todo != {}
        invariant todo <= Owned(m, plugin, kind)
        invariant slots == now - set s | s in Owned(m, plugin, kind) - todo :: Removal(s, m[s])
        decreases todo
      {
        var s :| s in todo;
        slots := slots - {Removal(s, m[s])};
        todo := todo - {s};
      }
    }

    /** Deactivation: gateway, engine and retrieval first, then the bundle and its handlers. */
    method UnsyncAll(plugin: string, m: Manager)
      modifies this
      ensures Unsynced(m, plugin, hasAuth, old(slots), slots)
      ensures forall t :: t in slots <==> t in old(slots) && !TakenOut(m, plugin, hasAuth, t)
    {
      hide Without, TakenOut;
      forall t ensures Leaves(m, plugin, hasAuth, t) <==> TakenOut(m, plugin, hasAuth, t) {
        LeavesIsTakenOut(m, plugin, hasAuth, t);
      }
      ghost var before := slots;
      NothingRemoved(m, plugin, slots);
      ghost var kinds := UnsyncGateway(plugin, m, before);
      kinds := UninstallBundle(plugin, m, before, kinds);
      AllRemoved(m, plugin, hasAuth, before, slots, kinds);
      RemoveHandlers(plugin, m);
    }

    method UnsyncGateway(plugin: string, m: Manager, ghost before: set<Slot>) returns (ghost kinds: set<Kind>)
      requires Without(m, plugin, before, slots, {})
      modifies this
      ensures kinds == {Codec, Provider, Advisor, Analyzer, RetrievalAdvisor, Encoding, Snapshot} + if hasAuth then {Auth} else {}
      ensures Without(m, plugin, before, slots, kinds)
    {
      hide Without;
      kinds := {};
      RemoveKind(plugin, m, Codec, before, kinds);
      kinds := kinds + {Codec};
      RemoveKind(plugin, m, Provider, before, kinds);
      kinds := kinds + {Provider};
      if hasAuth {
        RemoveKind(plugin, m, Auth, before, kinds);
        kinds := kinds + {Auth};
      }
      RemoveKind(plugin, m, Advisor, before, kinds);
      kinds := kinds + {Advisor};
      RemoveKind(plugin, m, Analyzer, before, kinds);
      kinds := kinds + {Analyzer};
      RemoveKind(plugin, m, RetrievalAdvisor, before, kinds);
      kinds := kinds + {RetrievalAdvisor};
      RemoveKind(plugin, m, Encoding, before, kinds);
      kinds := kinds + {Encoding};
      RemoveKind(plugin, m, Snapshot, before, kinds);
      kinds := kinds + {Snapshot};
    }

    method UninstallBundle(plugin: string, m: Manager, ghost before: set<Slot>, ghost done: set<Kind>) returns (ghost kinds: set<Kind>)
      requires Without(m, plugin, before, slots, done)
      modifies this
      ensures kinds == done + BundleKinds()
      ensures Without(m, plugin, before, slots, kinds)
    {
      hide Without;
      kinds := done;
      for i := 0 to |BUNDLE|
        invariant forall k :: k in kinds <==> k in done || k in BUNDLE[..i]
        invariant Without(m, plugin, before, slots, kinds)
      {
        RemoveKind(plugin, m, BUNDLE[i], before, kinds);
        kinds := kinds + {BUNDLE[i]};
      }
      assert BUNDLE[..|BUNDLE|] == BUNDLE;
    }

    method RemoveHandlers(plugin: string, m: Manager)
      modifies this
      ensures slots == old(slots) - set s | s in Owned(m, plugin, Tool) :: Slot(Handler, m[s].id)
    {
      ghost var now := slots;
      var todo := Owned(m, plugin, Tool);
      while todo != {}
        invariant todo <= Owned(m, plugin, Tool)
        invariant slots == now - set s | s in Owned(m, plugin, Tool) - todo :: Slot(Handler, m[s].id)
        decreases todo
      {
        var s :| s in todo;
        slots := slots - {Slot(Handler, m[s].id)};
        todo := todo - {s};
      }
    }
  }

  // ------------------------------------------------------- the methods' lemmas

  function BundleKinds(): set<Kind> {
    {Workflow, Tool, Trigger, Prompt, Fragment, ToolDescription, NodeTemplate, AgentTemplate}
  }

  function WithAuth(kinds: set<Kind>, hasAuth: bool): set<Kind> {
    if hasAuth then kinds + {Auth} else kinds
  }

  function AuthKinds(hasAuth: bool): set<Kind> {
    WithAuth(BundleKinds() + {Codec, Provider}, hasAuth)
  }

  function AdvisorKinds(hasAuth: bool): set<Kind> {
    AuthKinds(hasAuth) + {Advisor}
  }

  ghost predicate AllSynced(kinds: set<Kind>, hasAuth: bool) {
    forall k :: k in kinds ==> IsSynced(k, hasAuth)
  }

  lemma StagesSynced(hasAuth: bool)
    ensures AllSynced(BundleKinds(), hasAuth) && AllSynced(BundleKinds() + {Codec, Provider}, hasAuth)
    ensures AuthKinds(hasAuth) == WithAuth(BundleKinds() + {Codec, Provider}, hasAuth) && AllSynced(AuthKinds(hasAuth), hasAuth)
    ensures AdvisorKinds(hasAuth) == AuthKinds(hasAuth) + {Advisor} && AllSynced(AdvisorKinds(hasAuth), hasAuth)
  {
  }

  lemma StageKinds(hasAuth: bool)
    ensures Codec !in BundleKinds() && Provider !in BundleKinds()
    ensures Advisor !in AuthKinds(hasAuth)
    ensures Analyzer !in AdvisorKinds(hasAuth) && RetrievalAdvisor !in AdvisorKinds(hasAuth)
    ensures Encoding !in AdvisorKinds(hasAuth) && Snapshot !in AdvisorKinds(hasAuth)
  {
  }

  lemma LastStage(hasAuth: bool)
    ensures forall k :: k in AdvisorKinds(hasAuth) + {Analyzer, RetrievalAdvisor, Encoding, Snapshot} <==> IsSynced(k, hasAuth)
  {
  }

  /** The handlers and exactly the contributions of the given kinds are in. */
  ghost predicate Between(m: Manager, plugin: string, before: set<Slot>, now: set<Slot>, kinds: set<Kind>) {
    forall t :: t in now <==> t in before || t in HandlersOf(m, plugin) || (t.kind in kinds && t in LandsOf(m, plugin, t.kind, before))
  }

  /** Nothing more than those. */
  ghost predicate AtMost(m: Manager, plugin: string, before: set<Slot>, now: set<Slot>, kinds: set<Kind>) {
    && before <= now
    && forall t :: t in now ==> t in before || t in HandlersOf(m, plugin) || (t.kind in kinds && t in LandsOf(m, plugin, t.kind, before))
  }

  ghost predicate Without(m: Manager, plugin: string, before: set<Slot>, now: set<Slot>, kinds: set<Kind>) {
    forall t :: t in now <==> t in before && !(t.kind in kinds && Removed(m, plugin, t))
  }

  predicate Removed(m: Manager, plugin: string, t: Slot) {
    exists s :: s in Owned(m, plugin, t.kind) && t == Removal(s, m[s])
  }

  /** What activation guarantees about the host's keys. */
  ghost predicate Synced(m: Manager, plugin: string, hasAuth: bool, before: set<Slot>, now: set<Slot>, ok: bool) {
    && before <= now
    && (forall t :: t in now ==> t in before || Lands(m, plugin, hasAuth, before, t))
    && (ok ==> forall t :: Lands(m, plugin, hasAuth, before, t) ==> t in now)
  }

  /** What deactivation guarantees. */
  ghost predicate Unsynced(m: Manager, plugin: string, hasAuth: bool, before: set<Slot>, now: set<Slot>) {
    forall t :: t in now <==> t in before && !Leaves(m, plugin, hasAuth, t)
  }

  lemma LandsKind(m: Manager, plugin: string, kind: Kind, slots: set<Slot>)
    ensures forall t :: t in LandsOf(m, plugin, kind, slots) ==> t.kind == kind
  {
  }

  /** No key of the kind was taken before, where keys are not shared; snapshot policies have the right shape. */
  ghost predicate NoneTaken(m: Manager, plugin: string, kind: Kind, unique: bool, before: set<Slot>) {
    forall s :: s in Owned(m, plugin, kind) ==> (unique ==> Removal(s, m[s]) !in before) && (kind.Snapshot? ==> m[s].valid)
  }

  ghost predicate SomeHindered(m: Manager, plugin: string, kind: Kind, unique: bool, before: set<Slot>) {
    exists s :: s in Owned(m, plugin, kind) && Hindered(m, plugin, s, unique, before)
  }

  lemma SameTaken(m: Manager, plugin: string, kind: Kind, before: set<Slot>, now: set<Slot>, kinds: set<Kind>)
    requires Between(m, plugin, before, now, kinds) && kind !in kinds && !kind.Handler?
    ensures forall s :: s in Owned(m, plugin, kind) ==> (Removal(s, m[s]) in now <==> Removal(s, m[s]) in before)
    ensures forall s, unique :: s in Owned(m, plugin, kind) ==> (Hindered(m, plugin, s, unique, now) <==> Hindered(m, plugin, s, unique, before))
  {
  }

  lemma NoneYet(m: Manager, plugin: string, before: set<Slot>, now: set<Slot>)
    requires now == before + HandlersOf(m, plugin)
    ensures Between(m, plugin, before, now, {})
  {
  }

  /** Prompts are judged before this activation adds any fragment. */
  lemma SameVerdicts(m: Manager, plugin: string, kind: Kind, before: set<Slot>, now: set<Slot>, kinds: set<Kind>)
    requires Between(m, plugin, before, now, kinds)
    requires kind.Prompt? ==> Fragment !in kinds
    ensures LandsOf(m, plugin, kind, now) == LandsOf(m, plugin, kind, before)
  {
    if kind.Prompt? {
      assert forall f :: Slot(Fragment, f) in now <==> Slot(Fragment, f) in before;
    }
    assert forall s :: s in Owned(m, plugin, kind) ==> (Accepted(s, m[s], now) <==> Accepted(s, m[s], before));
  }

  lemma Stops(m: Manager, plugin: string, hasAuth: bool, before: set<Slot>, now: set<Slot>, kinds: set<Kind>)
    requires AtMost(m, plugin, before, now, kinds) || Between(m, plugin, before, now, kinds)
    requires forall k :: k in kinds ==> IsSynced(k, hasAuth)
    ensures Synced(m, plugin, hasAuth, before, now, false)
  {
  }

  lemma AuthNext(m: Manager, plugin: string, hasAuth: bool, before: set<Slot>, now: set<Slot>, next: set<Slot>, kinds: set<Kind>)
    requires Between(m, plugin, before, now, kinds)
    requires next == now + if hasAuth then LandsOf(m, plugin, Auth, now) else {}
    ensures Between(m, plugin, before, next, WithAuth(kinds, hasAuth))
  {
    SameVerdicts(m, plugin, Auth, before, now, kinds);
    LandsKind(m, plugin, Auth, before);
  }

  lemma Complete(m: Manager, plugin: string, hasAuth: bool, before: set<Slot>, now: set<Slot>, kinds: set<Kind>)
    requires Between(m, plugin, before, now, kinds)
    requires forall k :: k in kinds <==> IsSynced(k, hasAuth)
    ensures Synced(m, plugin, hasAuth, before, now, true)
  {
  }

  lemma NothingRemoved(m: Manager, plugin: string, slots: set<Slot>)
    ensures Without(m, plugin, slots, slots, {})
  {
  }

  lemma AllRemoved(m: Manager, plugin: string, hasAuth: bool, before: set<Slot>, now: set<Slot>, kinds: set<Kind>)
    requires Without(m, plugin, before, now, kinds)
    requires forall k :: k in kinds <==> IsSynced(k, hasAuth)
    ensures forall t :: t in now <==> t in before && !(IsSynced(t.kind, hasAuth) && Removed(m, plugin, t))
  {
  }

  // ------------------------------------------------------------- main results

  /** Registration and removal agreeing on the key, deactivation removes all that activation may add. */
  lemma LandsThenLeaves(m: Manager, plugin: string, hasAuth: bool, slots: set<Slot>, t: Slot)
    requires Consistent(m, plugin) && Lands(m, plugin, hasAuth, slots, t)
    ensures Leaves(m, plugin, hasAuth, t)
  {
    if t in HandlersOf(m, plugin) {
      var s :| s in Owned(m, plugin, Tool) && t == Slot(Handler, s.name);
      assert SameKeys(s, m[s]);
    } else {
      var s :| s in Owned(m, plugin, t.kind) && t == Landing(s, m[s]);
      assert SameKeys(s, m[s]);
    }
  }

  /**
   A key that activation brings and deactivation does not take: the handler of a tool
   registered under another name than its id, or an analyzer registered under another
   name than its own, unless a second entry of the plugin stands for the key.
   */
  predicate Stray(m: Manager, plugin: string, slots: set<Slot>, t: Slot) {
    || (t.kind.Handler? && t in HandlersOf(m, plugin) && forall s :: s in Owned(m, plugin, Tool) ==> m[s].id != t.name)
    || (t.kind.Analyzer? && t in LandsOf(m, plugin, Analyzer, slots) && forall s :: s in Owned(m, plugin, Analyzer) ==> Trim(s.name) != t.name)
  }

  lemma StrayIff(m: Manager, plugin: string, hasAuth: bool, slots: set<Slot>, t: Slot)
    ensures Stray(m, plugin, slots, t) <==> Lands(m, plugin, hasAuth, slots, t) && !Leaves(m, plugin, hasAuth, t)
  {
    if t in LandsOf(m, plugin, t.kind, slots) && !t.kind.Analyzer? && IsSynced(t.kind, hasAuth) {
      var s :| s in Owned(m, plugin, t.kind) && t == Landing(s, m[s]);
      SameKey(s, m[s]);
    }
  }

  lemma SameKey(s: Slot, c: Contribution)
    ensures !s.kind.Analyzer? ==> Landing(s, c) == Removal(s, c)
  {
  }

  /** Names that agree leave no strays. */
  lemma ConsistentHasNoStrays(m: Manager, plugin: string, hasAuth: bool, slots: set<Slot>, t: Slot)
    requires Consistent(m, plugin)
    ensures !Stray(m, plugin, slots, t)
  {
    StrayIff(m, plugin, hasAuth, slots, t);
    if Lands(m, plugin, hasAuth, slots, t) {
      LandsThenLeaves(m, plugin, hasAuth, slots, t);
    }
  }

  /**
   Activating and then deactivating, whether or not activation got through and
   whatever the names: the host loses exactly what deactivation takes and keeps exactly
   the strays that landed, so it is as before iff neither happens.
   */
  lemma CycleRestores(m: Manager, plugin: string, hasAuth: bool, before: set<Slot>, midway: set<Slot>, after: set<Slot>, ok: bool)
    requires Synced(m, plugin, hasAuth, before, midway, ok)
    requires Unsynced(m, plugin, hasAuth, midway, after)
    ensures forall t :: t in after <==> (t in before && !Leaves(m, plugin, hasAuth, t)) || (t in midway && Stray(m, plugin, before, t))
    ensures ok ==> forall t :: Stray(m, plugin, before, t) ==> t in midway
    ensures after == before <==>
            && (forall t :: t in before ==> !Leaves(m, plugin, hasAuth, t))
            && (forall t :: t in midway && Stray(m, plugin, before, t) ==> t in before)
  {
    hide Stray, Lands, Leaves;
    forall t
      ensures t in after <==> (t in before && !Leaves(m, plugin, hasAuth, t)) || (t in midway && Stray(m, plugin, before, t))
      ensures ok && Stray(m, plugin, before, t) ==> t in midway
    {
      StrayIff(m, plugin, hasAuth, before, t);
    }
    if after == before {
      forall t | t in before ensures !Leaves(m, plugin, hasAuth, t) {
        assert t in after;
      }
    }
  }

  /** A tool registered under another name than its id leaves its handler behind. */
  lemma RenamedToolLeavesHandler(m: Manager, plugin: string, hasAuth: bool, before: set<Slot>, midway: set<Slot>, after: set<Slot>, tool: Slot)
    requires tool in Owned(m, plugin, Tool) && AnyToolType(m)
    requires forall s :: s in Owned(m, plugin, Tool) ==> m[s].id != tool.name
    requires Synced(m, plugin, hasAuth, before, midway, true)
    requires Unsynced(m, plugin, hasAuth, midway, after)
    ensures Slot(Handler, tool.name) in after
  {
    CycleRestores(m, plugin, hasAuth, before, midway, after, true);
    assert Slot(Handler, tool.name) in HandlersOf(m, plugin);
    assert Stray(m, plugin, before, Slot(Handler, tool.name));
  }

  /** So does an analyzer that calls itself something else. */
  lemma RenamedAnalyzerStays(m: Manager, plugin: string, hasAuth: bool, before: set<Slot>, midway: set<Slot>, after: set<Slot>, analyzer: Slot)
    requires analyzer in Owned(m, plugin, Analyzer) && Trim(m[analyzer].id) != ""
    requires forall s :: s in Owned(m, plugin, Analyzer) ==> Trim(s.name) != Trim(m[analyzer].id)
    requires Synced(m, plugin, hasAuth, before, midway, true)
    requires Unsynced(m, plugin, hasAuth, midway, after)
    ensures Slot(Analyzer, Trim(m[analyzer].id)) in after
  {
    CycleRestores(m, plugin, hasAuth, before, midway, after, true);
    assert Landing(analyzer, m[analyzer]) in LandsOf(m, plugin, Analyzer, before);
    assert Stray(m, plugin, before, Slot(Analyzer, Trim(m[analyzer].id)));
  }

  /**
   After a successful activation a prompt is there exactly if it was, or if the plugin
   has a valid one of that id whose fragments the host held before.
   */
  lemma PromptThereIff(m: Manager, plugin: string, hasAuth: bool, before: set<Slot>, after: set<Slot>, id: string)
    requires Synced(m, plugin, hasAuth, before, after, true)
    ensures Slot(Prompt, id) in after <==>
            || Slot(Prompt, id) in before
            || exists s :: s in Owned(m, plugin, Prompt) && m[s].id == id && m[s].valid && forall f :: f in m[s].fragments ==> Slot(Fragment, f) in before
  {
    var t := Slot(Prompt, id);
    assert t !in HandlersOf(m, plugin);
    if s :| s in Owned(m, plugin, Prompt) && m[s].id == id && m[s].valid && forall f :: f in m[s].fragments ==> Slot(Fragment, f) in before {
      assert Accepted(s, m[s], before) && Landing(s, m[s]) == t;
      assert t in LandsOf(m, plugin, Prompt, before);
      assert Lands(m, plugin, hasAuth, before, t);
    }
  }

  /** A prompt composed of a fragment its own plugin brings is rejected on a host without that fragment. */
  lemma PromptBeforeOwnFragment(m: Manager, plugin: string, hasAuth: bool, before: set<Slot>, after: set<Slot>, ok: bool, prompt: Slot, fragment: string)
    requires prompt in Owned(m, plugin, Prompt) && fragment in m[prompt].fragments
    requires Slot(Fragment, fragment) !in before && Slot(Prompt, m[prompt].id) !in before
    requires forall s :: s in Owned(m, plugin, Prompt) && m[s].id == m[prompt].id ==> s == prompt
    requires Synced(m, plugin, hasAuth, before, after, ok)
    ensures Slot(Prompt, m[prompt].id) !in after
  {
    var t := Slot(Prompt, m[prompt].id);
    assert forall s :: s in Owned(m, plugin, Prompt) && Landing(s, m[s]) == t ==> s == prompt;
    assert !Accepted(prompt, m[prompt], before);
    assert t !in LandsOf(m, plugin, Prompt, before);
  }

  /** A tool's handler comes from whichever plugin has an executor, not from the tool's own plugin. */
  lemma HandlerFromAnyPlugin(m: Manager, plugin: string, hasAuth: bool, before: set<Slot>, after: set<Slot>, tool: Slot, executor: Slot)
    requires tool in Owned(m, plugin, Tool)
    requires executor in m && executor.kind.ToolType? && m[executor].owner != plugin
    requires Synced(m, plugin, hasAuth, before, after, true)
    ensures Slot(Handler, tool.name) in after
  {
    assert AnyToolType(m);
    assert Slot(Handler, tool.name) in HandlersOf(m, plugin);
    assert Lands(m, plugin, hasAuth, before, Slot(Handler, tool.name));
  }

  // --------------------------------------------------------- runs of both steps

  /** The keys a plugin may touch. */
  type Names = (string, Slot) -> bool

  datatype Step = Sync(plugin: string, m: Manager, ok: bool) | Unsync(plugin: string, m: Manager)

  /** `landed`: what each plugin's activations brought and nothing took since; `broken`: an activation failed part-way. */
  datatype Host = Host(slots: set<Slot>, landed: map<string, set<Slot>>, broken: set<string>)

  function LandedOf(h: Host, plugin: string): set<Slot> {
    if plugin in h.landed then h.landed[plugin] else {}
  }

  /** Everything a complete activation registers, as a set. */
  function LandsSet(m: Manager, plugin: string, hasAuth: bool, slots: set<Slot>): set<Slot> {
    HandlersOf(m, plugin)
    + set s | s in m && m[s].owner == plugin && IsSynced(s.kind, hasAuth) && Accepted(s, m[s], slots) :: Landing(s, m[s])
  }

  lemma LandsSetIsLands(m: Manager, plugin: string, hasAuth: bool, slots: set<Slot>, t: Slot)
    ensures t in LandsSet(m, plugin, hasAuth, slots) <==> Lands(m, plugin, hasAuth, slots, t)
  {
    if t in LandsSet(m, plugin, hasAuth, slots) && t !in HandlersOf(m, plugin) {
      var s :| s in m && m[s].owner == plugin && IsSynced(s.kind, hasAuth) && Accepted(s, m[s], slots) && t == Landing(s, m[s]);
      assert s in Owned(m, plugin, t.kind);
    }
  }

  function LeavesSet(m: Manager, plugin: string, hasAuth: bool): set<Slot> {
    (set s | s in Owned(m, plugin, Tool) :: Slot(Handler, m[s].id))
    + set s | s in m && m[s].owner == plugin && IsSynced(s.kind, hasAuth) :: Removal(s, m[s])
  }

  lemma LeavesSetIsLeaves(m: Manager, plugin: string, hasAuth: bool, t: Slot)
    ensures t in LeavesSet(m, plugin, hasAuth) <==> Leaves(m, plugin, hasAuth, t)
  {
    if s :| s in m && m[s].owner == plugin && IsSynced(s.kind, hasAuth) && t == Removal(s, m[s]) {
      assert s in Owned(m, plugin, t.kind);
    }
  }

  /** Deactivation takes every name the plugin may have brought. */
  ghost predicate Covers(names: Names, hasAuth: bool, plugin: string, m: Manager) {
    forall t :: names(plugin, t) ==> t in LeavesSet(m, plugin, hasAuth)
  }

  ghost predicate Next(names: Names, hasAuth: bool, h: Host, step: Step, h': Host) {
    match step
    case Sync(p, m, ok) =>
      && Synced(m, p, hasAuth, h.slots, h'.slots, ok)
      && h'.landed == (if ok then h.landed[p := LandedOf(h, p) + LandsSet(m, p, hasAuth, h.slots)] else h.landed)
      && h'.broken == (if ok then h.broken else h.broken + {p})
    case Unsync(p, m) =>
      && Unsynced(m, p, hasAuth, h.slots, h'.slots)
      && h'.landed == h.landed[p := LandedOf(h, p) - LeavesSet(m, p, hasAuth)]
      && h'.broken == (if Covers(names, hasAuth, p, m) then h.broken - {p} else h.broken)
  }

  /** A plugin's step keeps to the plugin's names; which of them it has, and which are accepted, may change from step to step. */
  ghost predicate Disciplined(names: Names, hasAuth: bool, h: Host, step: Step) {
    match step
    case Sync(p, m, _) => forall t :: Lands(m, p, hasAuth, h.slots, t) ==> names(p, t)
    case Unsync(p, m) => forall t :: Leaves(m, p, hasAuth, t) ==> names(p, t)
  }

  ghost predicate Disjoint(names: Names, base: set<Slot>) {
    && (forall p, t :: names(p, t) ==> t !in base)
    && (forall p, q, t :: names(p, t) && names(q, t) ==> p == q)
  }

  ghost predicate Run(names: Names, base: set<Slot>, hasAuth: bool, hosts: seq<Host>, steps: seq<Step>) {
    && |hosts| == |steps| + 1
    && hosts[0] == Host(base, map[], {})
    && forall i :: 0 <= i < |steps| ==>
         Next(names, hasAuth, hosts[i], steps[i], hosts[i + 1]) && Disciplined(names, hasAuth, hosts[i], steps[i])
  }

  /** Why a key may be there. */
  ghost predicate Reason(names: Names, base: set<Slot>, h: Host, t: Slot) {
    t in base || (exists p :: t in LandedOf(h, p)) || (exists p :: p in h.broken && names(p, t))
  }

  /** The base and everything landed is there, under its plugin's names, and nothing is there without a reason. */
  ghost predicate Accounted(names: Names, base: set<Slot>, h: Host) {
    && base <= h.slots
    && (forall p, t :: t in LandedOf(h, p) ==> t in h.slots && names(p, t))
    && forall t :: t in h.slots ==> Reason(names, base, h, t)
  }

  lemma BrokenReason(names: Names, base: set<Slot>, h: Host, p: string, t: Slot)
    requires p in h.broken && names(p, t)
    ensures Reason(names, base, h, t)
  {
  }

  lemma LandedReason(names: Names, base: set<Slot>, h: Host, p: string, t: Slot)
    requires t in LandedOf(h, p)
    ensures Reason(names, base, h, t)
  {
  }

  lemma SyncAccounted(names: Names, base: set<Slot>, hasAuth: bool, h: Host, p: string, m: Manager, ok: bool, h': Host)
    requires Disjoint(names, base) && Accounted(names, base, h)
    requires Next(names, hasAuth, h, Sync(p, m, ok), h') && Disciplined(names, hasAuth, h, Sync(p, m, ok))
    ensures Accounted(names, base, h')
  {
    hide Lands, LandsSet, LeavesSet;
    forall t ensures t in LandsSet(m, p, hasAuth, h.slots) <==> Lands(m, p, hasAuth, h.slots, t) {
      LandsSetIsLands(m, p, hasAuth, h.slots, t);
    }
    forall q: string, t | t in LandedOf(h', q) ensures t in h'.slots && names(q, t) {
      if t !in LandedOf(h, q) {
        assert q == p && t in LandsSet(m, p, hasAuth, h.slots);
      }
    }
    forall t | t in h'.slots ensures Reason(names, base, h', t) {
      if t !in h.slots {
        if ok {
          LandedReason(names, base, h', p, t);
        } else {
          BrokenReason(names, base, h', p, t);
        }
      } else if q: string :| t in LandedOf(h, q) {
        LandedReason(names, base, h', q, t);
      } else if q: string :| q in h.broken && names(q, t) {
        BrokenReason(names, base, h', q, t);
      }
    }
  }

  lemma UnsyncAccounted(names: Names, base: set<Slot>, hasAuth: bool, h: Host, p: string, m: Manager, h': Host)
    requires Disjoint(names, base) && Accounted(names, base, h)
    requires Next(names, hasAuth, h, Unsync(p, m), h') && Disciplined(names, hasAuth, h, Unsync(p, m))
    ensures Accounted(names, base, h')
  {
    hide Leaves, LandsSet, LeavesSet;
    forall t ensures t in LeavesSet(m, p, hasAuth) <==> Leaves(m, p, hasAuth, t) {
      LeavesSetIsLeaves(m, p, hasAuth, t);
    }
    assert base <= h'.slots;
    forall q: string, t | t in LandedOf(h', q) ensures t in h'.slots && names(q, t) {
      assert t in LandedOf(h, q);
    }
    forall t | t in h'.slots ensures Reason(names, base, h', t) {
      if q: string :| t in LandedOf(h, q) {
        LandedReason(names, base, h', q, t);
      } else if q: string :| q in h.broken && names(q, t) {
        BrokenReason(names, base, h', q, t);
      }
    }
  }

  lemma StepAccounted(names: Names, base: set<Slot>, hasAuth: bool, h: Host, step: Step, h': Host)
    requires Disjoint(names, base) && Accounted(names, base, h)
    requires Next(names, hasAuth, h, step, h') && Disciplined(names, hasAuth, h, step)
    ensures Accounted(names, base, h')
  {
    match step
    case Sync(p, m, ok) => SyncAccounted(names, base, hasAuth, h, p, m, ok, h');
    case Unsync(p, m) => UnsyncAccounted(names, base, hasAuth, h, p, m, h');
  }

  /**
   Over every interleaving of activations and deactivations the registries hold the
   base and what the plugins' activations landed and no deactivation took since, and
   nothing else but names of plugins whose activation failed and was not taken back.
   */
  lemma {:induction false} RunAccounted(names: Names, base: set<Slot>, hasAuth: bool, hosts: seq<Host>, steps: seq<Step>, n: nat)
    requires Disjoint(names, base) && Run(names, base, hasAuth, hosts, steps) && n < |hosts|
    ensures Accounted(names, base, hosts[n])
    ensures hosts[n].broken == {} ==>
      forall t :: t in hosts[n].slots <==> t in base || (exists p :: t in LandedOf(hosts[n], p))
    ensures hosts[n].broken == {} && (forall p :: LandedOf(hosts[n], p) == {}) ==> hosts[n].slots == base
  {
    hide Next, Disciplined;
    if n > 0 {
      RunAccounted(names, base, hasAuth, hosts, steps, n - 1);
      StepAccounted(names, base, hasAuth, hosts[n - 1], steps[n - 1], hosts[n]);
    }
  }

  /** A deactivation that covers the plugin's names takes all it has landed, failed activations included, and nothing of any other plugin. */
  lemma ConsistentDeactivation(names: Names, base: set<Slot>, hasAuth: bool, h: Host, p: string, m: Manager, h': Host)
    requires Disjoint(names, base) && Accounted(names, base, h)
    requires Next(names, hasAuth, h, Unsync(p, m), h') && Disciplined(names, hasAuth, h, Unsync(p, m))
    requires Covers(names, hasAuth, p, m)
    ensures LandedOf(h', p) == {} && p !in h'.broken
    ensures forall t :: t in h'.slots <==> t in h.slots && !names(p, t)
    ensures forall q :: q != p ==> LandedOf(h', q) == LandedOf(h, q)
  {
    hide Leaves, LeavesSet;
    forall t ensures t in LeavesSet(m, p, hasAuth) <==> Leaves(m, p, hasAuth, t) {
      LeavesSetIsLeaves(m, p, hasAuth, t);
    }
  }

  // ------------------------------------------------ plugins that do not change

  /** The names the plugins of one manager go by. */
  function OwnNames(m: Manager, hasAuth: bool): Names {
    (p: string, t: Slot) => t in LeavesSet(m, p, hasAuth)
  }

  /** A plugin whose names agree keeps to them, and its deactivation covers them. */
  lemma ConsistentKeepsTo(m: Manager, hasAuth: bool, h: Host, step: Step)
    requires step.m == m && Consistent(m, step.plugin)
    ensures Covers(OwnNames(m, hasAuth), hasAuth, step.plugin, m)
    ensures Disciplined(OwnNames(m, hasAuth), hasAuth, h, step)
  {
    hide Lands, Leaves, LeavesSet, Consistent;
    forall t ensures t in LeavesSet(m, step.plugin, hasAuth) <==> Leaves(m, step.plugin, hasAuth, t) {
      LeavesSetIsLeaves(m, step.plugin, hasAuth, t);
    }
    forall t | Lands(m, step.plugin, hasAuth, h.slots, t) ensures Leaves(m, step.plugin, hasAuth, t) {
      LandsThenLeaves(m, step.plugin, hasAuth, h.slots, t);
    }
  }

  /** Any activations and deactivations of the plugins of one manager. */
  ghost predicate FixedRun(m: Manager, base: set<Slot>, hasAuth: bool, hosts: seq<Host>, steps: seq<Step>) {
    && |hosts| == |steps| + 1
    && hosts[0] == Host(base, map[], {})
    && forall i :: 0 <= i < |steps| ==> steps[i].m == m && Next(OwnNames(m, hasAuth), hasAuth, hosts[i], steps[i], hosts[i + 1])
  }

  lemma FixedIsRun(m: Manager, base: set<Slot>, hasAuth: bool, hosts: seq<Host>, steps: seq<Step>)
    requires FixedRun(m, base, hasAuth, hosts, steps) && forall p :: Consistent(m, p)
    ensures Run(OwnNames(m, hasAuth), base, hasAuth, hosts, steps)
  {
    hide Next, Disciplined, Consistent;
    forall i | 0 <= i < |steps| ensures Disciplined(OwnNames(m, hasAuth), hasAuth, hosts[i], steps[i]) {
      ConsistentKeepsTo(m, hasAuth, hosts[i], steps[i]);
    }
  }

  /** Before the `n`-th step the plugin was never activated, or was deactivated after its last activation. */
  predicate Inactive(steps: seq<Step>, n: nat, p: string)
    requires n <= |steps|
  {
    n == 0 || (if steps[n - 1].plugin == p then steps[n - 1].Unsync? else Inactive(steps, n - 1, p))
  }

  lemma {:induction false} InactiveHoldsNothing(m: Manager, base: set<Slot>, hasAuth: bool, hosts: seq<Host>, steps: seq<Step>, n: nat, p: string)
    requires FixedRun(m, base, hasAuth, hosts, steps) && forall q :: Consistent(m, q)
    requires Disjoint(OwnNames(m, hasAuth), base) && n <= |steps| && Inactive(steps, n, p)
    ensures LandedOf(hosts[n], p) == {} && p !in hosts[n].broken
  {
    hide Consistent, Disjoint, Accounted, Synced, Unsynced;
    if n > 0 {
      var h, step := hosts[n - 1], steps[n - 1];
      assert Next(OwnNames(m, hasAuth), hasAuth, h, step, hosts[n - 1 + 1]);
      if step.plugin == p {
        FixedIsRun(m, base, hasAuth, hosts, steps);
        RunAccounted(OwnNames(m, hasAuth), base, hasAuth, hosts, steps, n - 1);
        ConsistentKeepsTo(m, hasAuth, h, step);
        ConsistentDeactivation(OwnNames(m, hasAuth), base, hasAuth, h, p, m, hosts[n]);
      } else {
        InactiveHoldsNothing(m, base, hasAuth, hosts, steps, n - 1, p);
      }
    }
  }

  /**
   Plugins whose names agree with themselves, and with no other's or the base's: after
   any activations, failed ones too, and deactivations, once all are deactivated the
   registries hold the base again.
   */
  lemma AllDeactivatedRestores(m: Manager, base: set<Slot>, hasAuth: bool, hosts: seq<Host>, steps: seq<Step>, n: nat)
    requires FixedRun(m, base, hasAuth, hosts, steps) && forall p :: Consistent(m, p)
    requires Disjoint(OwnNames(m, hasAuth), base) && n <= |steps| && forall p :: Inactive(steps, n, p)
    ensures hosts[n].slots == base
  {
    hide Consistent, Disjoint, Inactive, FixedRun;
    SameLengths(m, base, hasAuth, hosts, steps);
    FixedIsRun(m, base, hasAuth, hosts, steps);
    RunAccounted(OwnNames(m, hasAuth), base, hasAuth, hosts, steps, n);
    forall p: string ensures LandedOf(hosts[n], p) == {} && p !in hosts[n].broken {
      InactiveHoldsNothing(m, base, hasAuth, hosts, steps, n, p);
    }
    assert hosts[n].broken == {};
  }

  lemma SameLengths(m: Manager, base: set<Slot>, hasAuth: bool, hosts: seq<Host>, steps: seq<Step>)
    requires FixedRun(m, base, hasAuth, hosts, steps)
    ensures |hosts| == |steps| + 1
  {
  }
}
