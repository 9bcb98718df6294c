/**
 The budget scan that runs before a directory is copied: a recursion over the
 tree that stops early once a running total is over its limit.
 */
module CopyPlan {
  import opened Wrappers

  const MAX_FILE_BYTES: nat := 2 * 1024 * 1024
  const MAX_TOTAL_BYTES: nat := 16 * 1024 * 1024
  const MAX_FILES: nat := 500
  const MAX_DEPTH: nat := 8

  datatype Item =
    | File(size: nat)
    | Link
    | Unstatable
    | Folder(readable: bool, items: seq<Item>)

  datatype PlanError = TooDeep | Unreadable | LinkRefused | FileTooLarge | TooManyFiles | TooManyBytes

  datatype Plan = Plan(files: nat, totalBytes: nat)

  predicate Over(plan: Plan) {
    plan.files > MAX_FILES || plan.totalBytes > MAX_TOTAL_BYTES
  }

  function Add(a: Plan, b: Plan): Plan {
    Plan(a.files + b.files, a.totalBytes + b.totalBytes)
  }

  // ----------------------------------------------------------------- the scan

  function PlanDir(dir: Item, depth: nat): Result<Plan, PlanError>
    requires dir.Folder?
    decreases dir, 0
  {
    if depth > MAX_DEPTH then Err(TooDeep)
    else if !dir.readable then Err(Unreadable)
    else PlanItems(dir.items, depth, Plan(0, 0))
  }

  function PlanItem(item: Item, depth: nat): Result<Plan, PlanError>
    decreases item, 1
  {
    match item
    case Unstatable => Err(Unreadable)
    case Link => Err(LinkRefused)
    case Folder(_, _) => PlanDir(item, depth + 1)
    case File(size) => if size > MAX_FILE_BYTES then Err(FileTooLarge) else Ok(Plan(1, size))
  }

  function PlanItems(items: seq<Item>, depth: nat, plan: Plan): Result<Plan, PlanError>
    decreases items, 0
  {
    if items == [] then Ok(plan)
    else
      match PlanItem(items[0], depth)
      case Err(e) => Err(e)
      case Ok(own) =>
        var total := Add(plan, own);
        if Over(total) then Ok(total) else PlanItems(items[1..], depth, total)
  }

  /** The scan and the two checks `copy_entry` makes on its result. */
  function Admit(dir: Item): Result<Plan, PlanError>
    requires dir.Folder?
  {
    match PlanDir(dir, 0)
    case Err(e) => Err(e)
    case Ok(plan) =>
      if plan.files > MAX_FILES then Err(TooManyFiles)
      else if plan.totalBytes > MAX_TOTAL_BYTES then Err(TooManyBytes)
      else Ok(plan)
  }

  // ----------------------------------------------- the tree, without early exit

  /** Everything in the tree may be copied, its folders being `depth` levels down. */
  predicate Copyable(item: Item, depth: nat)
    decreases item
  {
    match item
    case File(size) => size <= MAX_FILE_BYTES
    case Link => false
    case Unstatable => false
    case Folder(readable, items) =>
      readable && depth <= MAX_DEPTH && forall i :: 0 <= i < |items| ==> Copyable(items[i], depth + 1)
  }

  function Total(item: Item): Plan
    decreases item, 1
  {
    match item
    case File(size) => Plan(1, size)
    case Folder(_, items) => Totals(items)
    case _ => Plan(0, 0)
  }

  function Totals(items: seq<Item>): Plan
    decreases items, 0
  {
    if items == [] then Plan(0, 0) else Add(Total(items[0]), Totals(items[1..]))
  }

  // ----------------------------------------------------------- what it decides

  /** The largest totals the scan of a folder at this depth can return. */
  function MostBytes(depth: nat): nat
    requires depth <= MAX_DEPTH + 1
  {
    (MAX_DEPTH + 1 - depth) * MAX_TOTAL_BYTES + MAX_FILE_BYTES
  }

  function MostFiles(depth: nat): nat
    requires depth <= MAX_DEPTH + 1
  {
    (MAX_DEPTH + 1 - depth) * MAX_FILES + 1
  }

  /** What one child can contribute to a folder's running totals. */
  lemma {:induction false} ItemBounded(item: Item, depth: nat)
    requires depth <= MAX_DEPTH && PlanItem(item, depth).Ok?
    ensures PlanItem(item, depth).value.totalBytes <= MostBytes(depth + 1)
    ensures PlanItem(item, depth).value.files <= MostFiles(depth + 1)
    decreases item, 1
  {
    if item.Folder? {
      ItemsBounded(item.items, depth + 1, Plan(0, 0));
    }
  }

  /** The running totals never come near the width of a 64-bit or even a 32-bit counter. */
  lemma {:induction false} ItemsBounded(items: seq<Item>, depth: nat, plan: Plan)
    requires depth <= MAX_DEPTH && !Over(plan) && PlanItems(items, depth, plan).Ok?
    ensures PlanItems(items, depth, plan).value.totalBytes <= MostBytes(depth) < 0x1_0000_0000
    ensures PlanItems(items, depth, plan).value.files <= MostFiles(depth) < 0x1_0000_0000
    decreases items, 0
  {
    if items != [] {
      ItemBounded(items[0], depth);
      var total := Add(plan, PlanItem(items[0], depth).value);
      if !Over(total) {
        ItemsBounded(items[1..], depth, total);
      }
    }
  }

  ghost predicate AllCopyable(items: seq<Item>, depth: nat) {
    forall x :: x in items ==> Copyable(x, depth)
  }

  lemma AllCopyableFirst(item: Item, items: seq<Item>, depth: nat)
    ensures AllCopyable([item] + items, depth) <==> Copyable(item, depth) && AllCopyable(items, depth)
  {
    hide Copyable;
    assert item in [item] + items;
    assert forall x :: x in items ==> x in [item] + items;
  }

  lemma ByIndex(items: seq<Item>, depth: nat)
    ensures AllCopyable(items, depth) <==> forall i :: 0 <= i < |items| ==> Copyable(items[i], depth)
  {
    hide Copyable;
  }

  /** Within the limits the scan has seen every item; every item within the limits is seen. */
  lemma {:induction false} ItemsExact(items: seq<Item>, depth: nat, plan: Plan)
    requires !Over(plan) && depth <= MAX_DEPTH
    ensures var all := Add(plan, Totals(items)); var result := PlanItems(items, depth, plan);
      && (result.Ok? && !Over(result.value) <==> AllCopyable(items, depth + 1) && !Over(all))
      && (result.Ok? && !Over(result.value) ==> result.value == all)
    decreases items, 0
  {
    hide Copyable, AllCopyable, PlanItem, Total;
    if items == [] {
      ByIndex(items, depth + 1);
    } else {
      ItemExact(items[0], depth);
      AllCopyableFirst(items[0], items[1..], depth + 1);
      assert items == [items[0]] + items[1..];
      match PlanItem(items[0], depth)
      case Err(_) =>
      case Ok(own) =>
        var total := Add(plan, own);
        if !Over(total) {
          ItemsExact(items[1..], depth, total);
        }
    }
  }

  lemma {:induction false} ItemExact(item: Item, depth: nat)
    requires depth <= MAX_DEPTH
    ensures var result := PlanItem(item, depth);
      && (result.Ok? && !Over(result.value) <==> Copyable(item, depth + 1) && !Over(Total(item)))
      && (result.Ok? && !Over(result.value) ==> result.value == Total(item))
    decreases item, 1
  {
    hide AllCopyable;
    if item.Folder? && depth + 1 <= MAX_DEPTH {
      ItemsExact(item.items, depth + 1, Plan(0, 0));
      ByIndex(item.items, depth + 2);
    }
  }

  /** What may be copied, level by level: files up to 2 MiB, readable folders down to the eighth level, and nothing else. */
  lemma CopyableIff(item: Item, depth: nat)
    ensures Copyable(item, depth) <==>
            || (item.File? && item.size <= 2 * 1024 * 1024)
            || (item.Folder? && item.readable && depth <= 8 && forall x :: x in item.items ==> Copyable(x, depth + 1))
  {
    if item.Folder? {
      ByIndex(item.items, depth + 1);
    }
  }

  /**
   Early exit or not: a folder is admitted exactly when its whole tree is copyable
   and its totals are within both limits, and the plan is then those totals.
   */
  lemma AdmitExact(dir: Item)
    requires dir.Folder?
    ensures Admit(dir).Ok? <==> Copyable(dir, 0) && !Over(Total(dir))
    ensures Admit(dir).Ok? ==> Admit(dir).value == Total(dir)
  {
    if dir.readable {
      ItemsExact(dir.items, 0, Plan(0, 0));
      ByIndex(dir.items, 1);
    }
  }

  /** In figures: 500 files and 16 MiB. */
  lemma AdmittedIff(dir: Item)
    requires dir.Folder?
    ensures Admit(dir).Ok? <==> Copyable(dir, 0) && Total(dir).files <= 500 && Total(dir).totalBytes <= 16 * 1024 * 1024
  {
    hide Admit, Copyable, Total;
    AdmitExact(dir);
  }

  lemma {:induction false} CopyableScans(item: Item, depth: nat)
    requires depth <= MAX_DEPTH && Copyable(item, depth + 1)
    ensures PlanItem(item, depth).Ok?
    decreases item, 1
  {
    if item.Folder? {
      CopyableItemsScan(item.items, depth + 1, Plan(0, 0));
    }
  }

  lemma {:induction false} CopyableItemsScan(items: seq<Item>, depth: nat, plan: Plan)
    requires depth <= MAX_DEPTH && forall i :: 0 <= i < |items| ==> Copyable(items[i], depth + 1)
    ensures PlanItems(items, depth, plan).Ok?
    decreases items, 0
  {
    if items != [] {
      CopyableScans(items[0], depth);
      CopyableItemsScan(items[1..], depth, Add(plan, PlanItem(items[0], depth).value));
    }
  }

  /** Links and unreadable folders are refused only where not everything may be copied. */
  lemma OverIsTooMuch(dir: Item)
    requires dir.Folder?
    ensures Admit(dir).Err? && (Admit(dir).error.LinkRefused? || Admit(dir).error.Unreadable?) ==> !Copyable(dir, 0)
  {
    if Copyable(dir, 0) {
      CopyableItemsScan(dir.items, 0, Plan(0, 0));
    }
  }

  lemma TotalsFirst(item: Item, items: seq<Item>)
    ensures Totals([item] + items) == Add(Total(item), Totals(items))
  {
    hide Total;
    assert ([item] + items)[1..] == items;
  }

  lemma AddLaws(a: Plan, b: Plan, c: Plan)
    ensures Add(Plan(0, 0), a) == a
    ensures Add(Add(a, b), c) == Add(a, Add(b, c)) == Add(b, Add(a, c))
  {
  }

  lemma AddValue(a: Plan, b: Plan)
    ensures Add(a, b) == Plan(a.files + b.files, a.totalBytes + b.totalBytes)
  {
  }

  lemma TotalsNone()
    ensures Totals([]) == Plan(0, 0)
  {
  }

  lemma {:induction false} TotalsConcat(a: seq<Item>, b: seq<Item>)
    ensures Totals(a + b) == Add(Totals(a), Totals(b))
  {
    hide *;
    if a == [] {
      TotalsNone();
      AddLaws(Totals(b), Totals(b), Totals(b));
      assert a + b == b;
    } else {
      TotalsConcat(a[1..], b);
      TotalsFirst(a[0], a[1..]);
      TotalsFirst(a[0], a[1..] + b);
      AddLaws(Total(a[0]), Totals(a[1..]), Totals(b));
      assert a == [a[0]] + a[1..];
      assert a + b == [a[0]] + (a[1..] + b);
    }
  }

  /** Taking one item out takes its total out. */
  lemma TotalsWithout(items: seq<Item>, i: nat)
    requires i < |items|
    ensures Totals(items) == Add(Total(items[i]), Totals(Without(items, i)))
  {
    hide Total, Totals, Add;
    var front, back := items[..i], items[i + 1..];
    assert items == front + ([items[i]] + back);
    TotalsConcat(front, [items[i]] + back);
    TotalsFirst(items[i], back);
    TotalsConcat(front, back);
    AddLaws(Totals(front), Total(items[i]), Totals(back));
  }

  /** The same tree, its directories enumerated in another order, at any level. */
  ghost predicate Reordered(a: Item, b: Item)
    decreases a, 1
  {
    if a.Folder? then b.Folder? && b.readable == a.readable && Shuffled(a.items, b.items) else b == a
  }

  ghost predicate Shuffled(a: seq<Item>, b: seq<Item>)
    decreases a, 0
  {
    if a == [] then b == []
    else exists i :: 0 <= i < |b| && Reordered(a[0], b[i]) && Shuffled(a[1..], Without(b, i))
  }

  function Without(items: seq<Item>, i: nat): seq<Item>
    requires i < |items|
  {
    items[..i] + items[i + 1..]
  }

  lemma {:induction false} TotalReordered(a: Item, b: Item)
    requires Reordered(a, b)
    ensures Total(a) == Total(b)
    decreases a, 1
  {
    if a.Folder? {
      TotalsShuffled(a.items, b.items);
    }
  }

  lemma {:induction false} TotalsShuffled(a: seq<Item>, b: seq<Item>)
    requires Shuffled(a, b)
    ensures Totals(a) == Totals(b)
    decreases a, 0
  {
    hide Total, Totals, Reordered;
    if a != [] {
      var i :| 0 <= i < |b| && Reordered(a[0], b[i]) && Shuffled(a[1..], Without(b, i));
      TotalReordered(a[0], b[i]);
      TotalsShuffled(a[1..], Without(b, i));
      TotalsWithout(b, i);
      TotalsFirst(a[0], a[1..]);
      assert a == [a[0]] + a[1..];
    }
  }

  lemma {:induction false} CopyableReordered(a: Item, b: Item, depth: nat)
    requires Reordered(a, b)
    ensures Copyable(a, depth) <==> Copyable(b, depth)
    decreases a, 1
  {
    if a.Folder? {
      CopyableShuffled(a.items, b.items, depth + 1);
    }
  }

  lemma AllCopyableWithout(items: seq<Item>, i: nat, depth: nat)
    requires i < |items|
    ensures AllCopyable(items, depth) <==> Copyable(items[i], depth) && AllCopyable(Without(items, i), depth)
  {
    hide Copyable;
    assert items == items[..i] + ([items[i]] + items[i + 1..]);
    assert forall x :: x in items <==> x == items[i] || x in Without(items, i);
  }

  lemma {:induction false} CopyableShuffled(a: seq<Item>, b: seq<Item>, depth: nat)
    requires Shuffled(a, b)
    ensures AllCopyable(a, depth) <==> AllCopyable(b, depth)
    ensures (forall i :: 0 <= i < |a| ==> Copyable(a[i], depth)) <==> forall i :: 0 <= i < |b| ==> Copyable(b[i], depth)
    decreases a, 0
  {
    hide Copyable, Reordered, Without;
    if a != [] {
      var i :| 0 <= i < |b| && Reordered(a[0], b[i]) && Shuffled(a[1..], Without(b, i));
      CopyableReordered(a[0], b[i], depth);
      CopyableShuffled(a[1..], Without(b, i), depth);
      AllCopyableWithout(b, i, depth);
      AllCopyableFirst(a[0], a[1..], depth);
      assert a == [a[0]] + a[1..];
    }
    ByIndex(a, depth);
    ByIndex(b, depth);
  }

  /** Early exit makes the error depend on the enumeration order, at whatever level, but not the decision, nor an accepted plan. */
  lemma AdmitIgnoresOrder(a: Item, b: Item)
    requires a.Folder? && Reordered(a, b)
    ensures b.Folder? && (Admit(a).Ok? <==> Admit(b).Ok?)
    ensures Admit(a).Ok? ==> Admit(a) == Admit(b)
  {
    hide Copyable, Total, Admit, Shuffled;
    AdmitExact(a);
    AdmitExact(b);
    TotalReordered(a, b);
    CopyableReordered(a, b, 0);
  }

  // -------------------------------------------------------------- the program

  method PlanCopyDir(dir: Item, depth: nat) returns (result: Result<Plan, PlanError>)
    requires dir.Folder?
    ensures result == PlanDir(dir, depth)
    decreases dir
  {
    if depth > MAX_DEPTH {
      return Err(TooDeep);
    }
    if !dir.readable {
      return Err(Unreadable);
    }
    var plan := Plan(0, 0);
    for i := 0 to |dir.items|
      invariant !Over(plan)
      invariant PlanDir(dir, depth) == PlanItems(dir.items[i..], depth, plan)
    {
      var child := dir.items[i];
      assert dir.items[i..][1..] == dir.items[i + 1..];
      match child {
        case Unstatable =>
          return Err(Unreadable);
        case Link =>
          return Err(LinkRefused);
        case Folder(_, _) =>
          var sub := PlanCopyDir(child, depth + 1);
          if sub.Err? {
            return sub;
          }
          ItemBounded(child, depth);
          assert plan.totalBytes + sub.value.totalBytes <= MostBytes(depth) && plan.files + sub.value.files <= MostFiles(depth);
          plan := Add(plan, sub.value);
        case File(size) =>
          if size > MAX_FILE_BYTES {
            return Err(FileTooLarge);
          }
          plan := Plan(plan.files + 1, plan.totalBytes + size);
      }
      if Over(plan) {
        return Ok(plan);
      }
    }
    result := Ok(plan);
  }
}
