/** The acceptance contract: the union of the plans' contracts and the verdict on it
    (core/acceptance_contract.py).

    What a check finds is a function of the criterion's key, as is the lower-casing of its type of
    its text: file system, commands and Unicode tables are not part of this model. */
module AcceptanceContract {
  import opened Wrappers
  import opened Text

  /** One entry as the Planner wrote it; a field that is missing or null is None. */
  datatype Raw =
    | NotAnObject
    | Object(kind: Option<string>, value: Option<string>, expected: Option<string>, description: Option<string>)

  datatype Criterion = Criterion(kind: string, value: string, expected: Option<string>, description: string, met: bool)

  type Lowering = string -> string

  function TextOf(field: Option<string>): string { if field.Some? then Strip(field.value) else "" }

  /** `normaliser_criteres` on one entry: an entry without a value is dropped, and `met` is never
      read from it. */
  function Normalized(raw: Raw, lower: Lowering): Option<Criterion> {
    if raw.NotAnObject? || TextOf(raw.value) == "" then None
    else Some(Criterion(lower(TextOf(raw.kind)), TextOf(raw.value), raw.expected, TextOf(raw.description), false))
  }

  function NormalizedAll(raws: seq<Raw>, lower: Lowering): seq<Criterion> {
    if raws == [] then []
    else
      var n := Normalized(raws[|raws|-1], lower);
      NormalizedAll(raws[..|raws|-1], lower) + if n.Some? then [n.value] else []
  }

  /** `cle_critere`: what is required, however it is worded. */
  datatype Key = Key(kind: string, value: string, expected: Option<string>)

  function KeyOf(c: Criterion): Key { Key(c.kind, c.value, c.expected) }

  function KeyOfRaw(raw: Raw, lower: Lowering): Option<Key> {
    var n := Normalized(raw, lower);
    if n.Some? then Some(KeyOf(n.value)) else None
  }

  // ---------------------------------------------------------------- the union

  function KeysIn(raws: seq<Raw>, lower: Lowering): set<Key> {
    if raws == [] then {}
    else
      var k := KeyOfRaw(raws[|raws|-1], lower);
      KeysIn(raws[..|raws|-1], lower) + if k.Some? then {k.value} else {}
  }

  /** The entries whose key is neither in `seen` nor earlier in the list. */
  function Fresh(raws: seq<Raw>, seen: set<Key>, lower: Lowering): seq<Raw> {
    if raws == [] then []
    else
      var init, k := raws[..|raws|-1], KeyOfRaw(raws[|raws|-1], lower);
      Fresh(init, seen, lower)
        + if k.Some? && k.value !in seen + KeysIn(init, lower) then [raws[|raws|-1]] else []
  }

  function AllKeys(lists: seq<seq<Raw>>, lower: Lowering): set<Key> {
    if lists == [] then {} else AllKeys(lists[..|lists|-1], lower) + KeysIn(lists[|lists|-1], lower)
  }

  /** The union: what the newest list adds, then what the one before added, and so on. */
  function Union(lists: seq<seq<Raw>>, lower: Lowering): seq<Raw> {
    if lists == [] then []
    else
      var older := lists[..|lists|-1];
      Fresh(lists[|lists|-1], AllKeys(older, lower), lower) + Union(older, lower)
  }

  ghost predicate DistinctKeys(raws: seq<Raw>, lower: Lowering) {
    && (forall i :: 0 <= i < |raws| ==> KeyOfRaw(raws[i], lower).Some?)
    && (forall i, j :: 0 <= i < j < |raws| ==> KeyOfRaw(raws[i], lower) != KeyOfRaw(raws[j], lower))
  }

  lemma {:induction false} KeyIsIn(raws: seq<Raw>, i: nat, lower: Lowering)
    requires i < |raws| && KeyOfRaw(raws[i], lower).Some?
    ensures KeyOfRaw(raws[i], lower).value in KeysIn(raws, lower)
  {
    if i < |raws| - 1 { KeyIsIn(raws[..|raws|-1], i, lower); }
  }

  lemma {:induction false} KeysOfSum(a: seq<Raw>, b: seq<Raw>, lower: Lowering)
    ensures KeysIn(a + b, lower) == KeysIn(a, lower) + KeysIn(b, lower)
  {
    if b == [] {
      assert a + b == a;
    } else {
      assert (a + b)[..|a + b|-1] == a + b[..|b|-1];
      KeysOfSum(a, b[..|b|-1], lower);
    }
  }

  lemma KeysOfOneMore(raws: seq<Raw>, last: Raw, lower: Lowering)
    ensures KeysIn(raws + [last], lower) ==
      KeysIn(raws, lower) + var k := KeyOfRaw(last, lower); if k.Some? then {k.value} else {}
  {
    assert (raws + [last])[..|raws|] == raws;
  }

  lemma DistinctOfOneMore(raws: seq<Raw>, last: Raw, lower: Lowering)
    requires DistinctKeys(raws, lower) && KeyOfRaw(last, lower).Some?
    requires KeyOfRaw(last, lower).value !in KeysIn(raws, lower)
    ensures DistinctKeys(raws + [last], lower)
  {
    forall i: nat | i < |raws| ensures KeyOfRaw(raws[i], lower) != KeyOfRaw(last, lower) { KeyIsIn(raws, i, lower); }
  }

  lemma {:induction false} FreshKeys(raws: seq<Raw>, seen: set<Key>, lower: Lowering)
    ensures KeysIn(Fresh(raws, seen, lower), lower) == KeysIn(raws, lower) - seen
    ensures DistinctKeys(Fresh(raws, seen, lower), lower)
  {
    if raws != [] {
      var init, last := raws[..|raws|-1], raws[|raws|-1];
      assert init + [last] == raws;
      var k, before := KeyOfRaw(last, lower), Fresh(init, seen, lower);
      FreshKeys(init, seen, lower);
      KeysOfOneMore(init, last, lower);
      if k.Some? && k.value !in seen + KeysIn(init, lower) {
        KeysOfOneMore(before, last, lower);
        DistinctOfOneMore(before, last, lower);
      } else {
        assert before + [] == before;
      }
    }
  }

  lemma DistinctSum(a: seq<Raw>, b: seq<Raw>, lower: Lowering)
    requires DistinctKeys(a, lower) && DistinctKeys(b, lower) && KeysIn(a, lower) !! KeysIn(b, lower)
    ensures DistinctKeys(a + b, lower)
  {
    forall i: nat, j: nat | i < j < |a + b| ensures KeyOfRaw((a + b)[i], lower) != KeyOfRaw((a + b)[j], lower) {
      if i < |a| && j >= |a| {
        KeyIsIn(a, i, lower);
        KeyIsIn(b, j - |a|, lower);
      }
    }
  }

  /** Every key of every contract is in the union, and exactly once. */
  lemma {:induction false} UnionKeepsEveryKeyOnce(lists: seq<seq<Raw>>, lower: Lowering)
    ensures KeysIn(Union(lists, lower), lower) == AllKeys(lists, lower)
    ensures DistinctKeys(Union(lists, lower), lower)
  {
    if lists != [] {
      var older, last := lists[..|lists|-1], lists[|lists|-1];
      var added := Fresh(last, AllKeys(older, lower), lower);
      UnionKeepsEveryKeyOnce(older, lower);
      FreshKeys(last, AllKeys(older, lower), lower);
      KeysOfSum(added, Union(older, lower), lower);
      DistinctSum(added, Union(older, lower), lower);
    }
  }

  /** Two criteria have the same key exactly when they agree on type, value and expected pattern. */
  lemma SameKeyIff(c: Criterion, d: Criterion)
    ensures KeyOf(c) == KeyOf(d) <==> c.kind == d.kind && c.value == d.value && c.expected == d.expected
  {
  }

  /** What an entry requires, in its fields: it states nothing without a value. */
  lemma KeyInFields(raw: Raw, lower: Lowering)
    ensures KeyOfRaw(raw, lower).Some? <==> raw.Object? && raw.value.Some? && Strip(raw.value.value) != ""
    ensures KeyOfRaw(raw, lower).Some? ==>
      var c := Normalized(raw, lower).value;
      && c.kind == lower(if raw.kind.Some? then Strip(raw.kind.value) else "")
      && c.value == Strip(raw.value.value) && c.expected == raw.expected && !c.met
      && c.description == if raw.description.Some? then Strip(raw.description.value) else ""
  {
  }

  /** The same requirement: same lowered type, stripped value and expected pattern. */
  ghost predicate SameRequirement(a: Raw, b: Raw, lower: Lowering) {
    && a.Object? && b.Object? && a.value.Some? && b.value.Some?
    && lower(if a.kind.Some? then Strip(a.kind.value) else "")
       == lower(if b.kind.Some? then Strip(b.kind.value) else "")
    && Strip(a.value.value) == Strip(b.value.value)
    && a.expected == b.expected
  }

  lemma SameKeyIsSameRequirement(a: Raw, b: Raw, lower: Lowering)
    requires KeyOfRaw(a, lower).Some? && KeyOfRaw(b, lower).Some?
    ensures KeyOfRaw(a, lower) == KeyOfRaw(b, lower) <==> SameRequirement(a, b, lower)
  {
    KeyInFields(a, lower);
    KeyInFields(b, lower);
    SameKeyIff(Normalized(a, lower).value, Normalized(b, lower).value);
  }

  lemma {:induction false} KeyComesFrom(raws: seq<Raw>, k: Key, lower: Lowering) returns (i: nat)
    requires k in KeysIn(raws, lower)
    ensures i < |raws| && KeyOfRaw(raws[i], lower) == Some(k)
  {
    i := |raws| - 1;
    if KeyOfRaw(raws[i], lower) != Some(k) { i := KeyComesFrom(raws[..i], k, lower); }
  }

  lemma {:induction false} ListKeysAreIn(lists: seq<seq<Raw>>, i: nat, lower: Lowering)
    requires i < |lists|
    ensures KeysIn(lists[i], lower) <= AllKeys(lists, lower)
  {
    if i < |lists| - 1 { ListKeysAreIn(lists[..|lists|-1], i, lower); }
  }

  /** Every entry with a value, in any contract, is still required by the union, and no two entries of
      the union require the same. */
  lemma NoRequirementIsLost(lists: seq<seq<Raw>>, i: nat, j: nat, lower: Lowering) returns (k: nat)
    requires i < |lists| && j < |lists[i]|
    requires lists[i][j].Object? && lists[i][j].value.Some? && Strip(lists[i][j].value.value) != ""
    ensures var union := Union(lists, lower);
      && k < |union| && SameRequirement(lists[i][j], union[k], lower)
      && forall m :: 0 <= m < |union| && m != k ==> !SameRequirement(lists[i][j], union[m], lower)
  {
    var raw, union := lists[i][j], Union(lists, lower);
    KeyInFields(raw, lower);
    KeyIsIn(lists[i], j, lower);
    ListKeysAreIn(lists, i, lower);
    UnionKeepsEveryKeyOnce(lists, lower);
    k := KeyComesFrom(union, KeyOfRaw(raw, lower).value, lower);
    forall m | 0 <= m < |union| ensures m == k <==> SameRequirement(raw, union[m], lower) {
      SameKeyIsSameRequirement(raw, union[m], lower);
      if m < k { assert KeyOfRaw(union[m], lower) != KeyOfRaw(union[k], lower); }
    }
  }

  // ---------------------------------------------------------------- which wording is kept

  /** Entry j of list i is the first to state its key, in the order of time. */
  ghost predicate FirstToState(lists: seq<seq<Raw>>, i: nat, j: nat, lower: Lowering) {
    && i < |lists| && j < |lists[i]| && KeyOfRaw(lists[i][j], lower).Some?
    && KeyOfRaw(lists[i][j], lower).value !in AllKeys(lists[..i], lower) + KeysIn(lists[i][..j], lower)
  }

  lemma {:induction false} FirstIsFresh(raws: seq<Raw>, seen: set<Key>, j: nat, lower: Lowering)
    requires j < |raws| && KeyOfRaw(raws[j], lower).Some?
    requires KeyOfRaw(raws[j], lower).value !in seen + KeysIn(raws[..j], lower)
    ensures raws[j] in Fresh(raws, seen, lower)
  {
    var init := raws[..|raws|-1];
    if j < |raws| - 1 {
      assert init[..j] == raws[..j];
      FirstIsFresh(init, seen, j, lower);
    }
  }

  /** The wording kept for a key is the one of the earliest contract that states it. */
  lemma {:induction false} EarliestWordingWins(lists: seq<seq<Raw>>, i: nat, j: nat, lower: Lowering)
    requires FirstToState(lists, i, j, lower)
    ensures lists[i][j] in Union(lists, lower)
  {
    var older, last := lists[..|lists|-1], lists[|lists|-1];
    if i == |lists| - 1 {
      FirstIsFresh(last, AllKeys(older, lower), j, lower);
    } else {
      assert older[..i] == lists[..i];
      EarliestWordingWins(older, i, j, lower);
    }
  }

  // ---------------------------------------------------------------- the verdict

  /** What the check of a key finds: true, false, or that it cannot be checked. */
  datatype Truth = Met | Unmet | Unknown
  type Check = Key -> Truth

  datatype Finding = Finding(criterion: Criterion, truth: Truth)

  /** `_marquer_si_satisfait_d_avance` */
  function Marked(f: Finding, index: nat, initial: map<nat, bool>): Finding {
    if index in initial && initial[index] && !f.criterion.met then f.(criterion := f.criterion.(met := true)) else f
  }

  function FindingAt(criteria: seq<Criterion>, i: nat, check: Check, initial: map<nat, bool>): Finding
    requires i < |criteria|
  {
    Marked(Finding(criteria[i], check(KeyOf(criteria[i]))), i, initial)
  }

  function Report(criteria: seq<Criterion>, check: Check, initial: map<nat, bool>): (r: seq<Finding>)
    ensures |r| == |criteria| && forall i :: 0 <= i < |criteria| ==> r[i] == FindingAt(criteria, i, check, initial)
  {
    seq(|criteria|, i requires 0 <= i < |criteria| => FindingAt(criteria, i, check, initial))
  }

  predicate Fails(f: Finding) { f.truth.Unmet? }

  /** Decided, and not true before the work began. */
  predicate Verifiable(f: Finding) { !f.truth.Unknown? && !f.criterion.met }

  predicate Satisfied(report: seq<Finding>) {
    (exists i :: 0 <= i < |report| && Verifiable(report[i])) && forall i :: 0 <= i < |report| ==> !Fails(report[i])
  }

  /** A contract is satisfied exactly when some criterion that was not met in advance is now true and
      none is false, met in advance or not. */
  lemma SatisfiedIff(criteria: seq<Criterion>, check: Check, initial: map<nat, bool>)
    ensures Satisfied(Report(criteria, check, initial)) <==>
      && (exists i :: 0 <= i < |criteria| && check(KeyOf(criteria[i])).Met?
            && !criteria[i].met && !(i in initial && initial[i]))
      && (forall i :: 0 <= i < |criteria| ==> !check(KeyOf(criteria[i])).Unmet?)
  {
    var r := Report(criteria, check, initial);
    forall i | 0 <= i < |criteria|
      ensures Fails(r[i]) <==> check(KeyOf(criteria[i])).Unmet?
      ensures Verifiable(r[i]) && !Fails(r[i]) <==>
        check(KeyOf(criteria[i])).Met? && !criteria[i].met && !(i in initial && initial[i])
    {
      assert r[i] == FindingAt(criteria, i, check, initial);
    }
  }

  /** The second reading finds at least as much met in advance as the first. */
  predicate MarksMore(initial: map<nat, bool>, more: map<nat, bool>) {
    forall i :: i in initial && initial[i] ==> i in more && more[i]
  }

  /** Marking more criteria as met in advance never turns a refused contract into a satisfied one. */
  lemma MarkingNeverHelps(criteria: seq<Criterion>, check: Check, initial: map<nat, bool>, more: map<nat, bool>)
    requires MarksMore(initial, more) && Satisfied(Report(criteria, check, more))
    ensures Satisfied(Report(criteria, check, initial))
  {
    SatisfiedIff(criteria, check, more);
    SatisfiedIff(criteria, check, initial);
  }

  lemma {:induction false} KeysAreNormalized(raws: seq<Raw>, lower: Lowering, k: Key)
    ensures k in KeysIn(raws, lower) <==> exists c :: c in NormalizedAll(raws, lower) && KeyOf(c) == k
  {
    if raws != [] {
      var init, n := raws[..|raws|-1], Normalized(raws[|raws|-1], lower);
      KeysAreNormalized(init, lower, k);
      if n.Some? {
        assert n.value in NormalizedAll(raws, lower);
      }
    }
  }

  /** Criteria keep the order of the entries they come from, which is the order of the initial reading. */
  lemma NormalizedInOrder(raws: seq<Raw>, last: Raw, lower: Lowering)
    ensures NormalizedAll(raws + [last], lower) ==
      var n := Normalized(last, lower);
      if n.Some? then NormalizedAll(raws, lower) + [n.value] else NormalizedAll(raws, lower)
  {
    assert (raws + [last])[..|raws|] == raws;
    assert NormalizedAll(raws, lower) + [] == NormalizedAll(raws, lower);
  }

  lemma CriterionFails(criteria: seq<Criterion>, check: Check, initial: map<nat, bool>, c: Criterion)
    requires Satisfied(Report(criteria, check, initial)) && c in criteria
    ensures !check(KeyOf(c)).Unmet?
  {
    SatisfiedIff(criteria, check, initial);
    var i :| 0 <= i < |criteria| && criteria[i] == c;
  }

  /** A later contract can only add requirements: what fails in the union of the contracts so far
      still makes the contract fail after any further one, whatever was met in advance. */
  lemma ContractsOnlyGetStricter(
      lists: seq<seq<Raw>>, list: seq<Raw>, lower: Lowering, check: Check, initial: map<nat, bool>, c: Criterion)
    requires Satisfied(Report(NormalizedAll(Union(lists + [list], lower), lower), check, initial))
    requires c in NormalizedAll(Union(lists, lower), lower)
    ensures !check(KeyOf(c)).Unmet?
  {
    assert (lists + [list])[..|lists|] == lists;
    UnionKeepsEveryKeyOnce(lists, lower);
    UnionKeepsEveryKeyOnce(lists + [list], lower);
    KeysAreNormalized(Union(lists, lower), lower, KeyOf(c));
    KeysAreNormalized(Union(lists + [list], lower), lower, KeyOf(c));
    var d :| d in NormalizedAll(Union(lists + [list], lower), lower) && KeyOf(d) == KeyOf(c);
    CriterionFails(NormalizedAll(Union(lists + [list], lower), lower), check, initial, d);
  }

  // ---------------------------------------------------------------- the loops

  /** The values of the dictionary `union`, in order of insertion: an entry and its list. */
  datatype Stamped = Stamped(position: nat, raw: Raw)

  function At(values: seq<Stamped>, p: nat): seq<Raw> {
    if values == [] then []
    else At(values[..|values|-1], p) + if values[|values|-1].position == p then [values[|values|-1].raw] else []
  }

  /** sorted(values, key=-position) on positions below n: the sort of Python is stable. */
  function NewestFirst(values: seq<Stamped>, n: nat): seq<Raw> {
    if n == 0 then [] else At(values, n - 1) + NewestFirst(values, n - 1)
  }

  lemma AtOfOneMore(values: seq<Stamped>, x: Stamped, p: nat)
    ensures At(values + [x], p) == if x.position == p then At(values, p) + [x.raw] else At(values, p)
  {
    assert (values + [x])[..|values|] == values;
    assert At(values, p) + [] == At(values, p);
  }

  lemma FreshOfOneMore(raws: seq<Raw>, last: Raw, seen: set<Key>, lower: Lowering)
    ensures Fresh(raws + [last], seen, lower) ==
      var k := KeyOfRaw(last, lower);
      var kept := Fresh(raws, seen, lower);
      if k.Some? && k.value !in seen + KeysIn(raws, lower) then kept + [last] else kept
  {
    assert (raws + [last])[..|raws|] == raws;
    assert Fresh(raws, seen, lower) + [] == Fresh(raws, seen, lower);
  }

  ghost predicate Filed(values: seq<Stamped>, lists: seq<seq<Raw>>, p: nat, lower: Lowering)
    requires p <= |lists|
  {
    forall q: nat :: q < p ==> At(values, q) == Fresh(lists[q], AllKeys(lists[..q], lower), lower)
  }

  lemma {:induction false} FiledIsUnion(values: seq<Stamped>, lists: seq<seq<Raw>>, n: nat, lower: Lowering)
    requires n <= |lists| && Filed(values, lists, n, lower)
    ensures NewestFirst(values, n) == Union(lists[..n], lower)
  {
    if n > 0 {
      FiledIsUnion(values, lists, n - 1, lower);
      assert lists[..n][..n-1] == lists[..n-1];
    }
  }

  method UnionContracts(lists: seq<seq<Raw>>, lower: Lowering) returns (union: seq<Raw>)
    ensures union == Union(lists, lower)
  {
    var values: seq<Stamped>, keys: set<Key> := [], {};
    var p := 0;
    while p < |lists|
      invariant p <= |lists| && keys == AllKeys(lists[..p], lower) && Filed(values, lists, p, lower)
      invariant forall q: nat :: q >= p ==> At(values, q) == []
    {
      assert lists[..p+1][..p] == lists[..p];
      values, keys := FileList(values, keys, lists[p], p, lower);
      p := p + 1;
    }
    FiledIsUnion(values, lists, p, lower);
    assert lists[..p] == lists;
    union := NewestFirst(values, |lists|);
  }

  method FileList(values: seq<Stamped>, keys: set<Key>, list: seq<Raw>, p: nat, lower: Lowering)
    returns (values': seq<Stamped>, keys': set<Key>)
    requires At(values, p) == []
    ensures keys' == keys + KeysIn(list, lower) && At(values', p) == Fresh(list, keys, lower)
    ensures forall q: nat :: q != p ==> At(values', q) == At(values, q)
  {
    values', keys' := values, keys;
    var j := 0;
    while j < |list|
      invariant j <= |list| && keys' == keys + KeysIn(list[..j], lower)
      invariant At(values', p) == Fresh(list[..j], keys, lower)
      invariant forall q: nat :: q != p ==> At(values', q) == At(values, q)
    {
      assert list[..j+1] == list[..j] + [list[j]];
      KeysOfOneMore(list[..j], list[j], lower);
      FreshOfOneMore(list[..j], list[j], keys, lower);
      var key := KeyOfRaw(list[j], lower);
      if key.Some? && key.value !in keys' {
        forall q: nat ensures At(values' + [Stamped(p, list[j])], q)
          == if q == p then At(values', q) + [list[j]] else At(values', q)
        {
          AtOfOneMore(values', Stamped(p, list[j]), q);
        }
        values', keys' := values' + [Stamped(p, list[j])], keys' + {key.value};
      }
      j := j + 1;
    }
    assert list[..j] == list;
  }

  method VerifyContract(criteria: seq<Criterion>, check: Check, initial: map<nat, bool>) returns (report: seq<Finding>)
    ensures report == Report(criteria, check, initial)
  {
    report := [];
    var i := 0;
    while i < |criteria|
      invariant i <= |criteria| && report == Report(criteria, check, initial)[..i]
    {
      var finding := Finding(criteria[i], check(KeyOf(criteria[i])));
      report := report + [Marked(finding, i, initial)];
      i := i + 1;
    }
  }
}
