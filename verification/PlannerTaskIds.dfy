/** Task ids of a plan: `normaliser_task_ids` and `elaguer_dependances_fantomes`
    (agents/planner.py).

    `Normalized` says what the renaming yields without its two dictionaries; the method
    `NormalizeTaskIds` is the source's pair of loops over `correspondance` and `compteurs`. */
module PlannerTaskIds {
  import opened Text

  /** A step of the plan; `rest` stands for the keys that the pass copies untouched. */
  datatype Step = Step(taskId: string, dependsOn: seq<string>, rest: string)
  type Plan = seq<Step>

  // ---------------------------------------------------------------- slugs

  predicate IsSlugChar(c: char) { 'a' <= c <= 'z' || '0' <= c <= '9' || c == '_' }

  predicate IsSlug(s: string) { s != "" && forall i :: 0 <= i < |s| ==> IsSlugChar(s[i]) }

  /** What one character becomes under lower(), replace(" ", "_"), replace("-", "_") and the
      removal of everything outside [a-z0-9_].  The Kelvin sign and the dotted capital I are
      the only characters beyond ASCII whose lower case holds an ASCII letter. */
  function SlugChar(c: char): (r: string)
    ensures forall i :: 0 <= i < |r| ==> IsSlugChar(r[i])
  {
    if IsSlugChar(c) then [c]
    else if 'A' <= c <= 'Z' then [(c as int + 32) as char]
    else if c == ' ' || c == '-' then "_"
    else if c as int == 0x212A then "k"
    else if c as int == 0x130 then "i"
    else ""
  }

  function SlugChars(s: string): (r: string)
    ensures forall i :: 0 <= i < |r| ==> IsSlugChar(r[i])
  {
    if s == "" then "" else SlugChar(s[0]) + SlugChars(s[1..])
  }

  /** `_slugifier` */
  function Slug(s: string): string {
    var net := SlugChars(Strip(s));
    if net == "" then "tache" else net
  }

  lemma SlugIsSlug(s: string)
    ensures IsSlug(Slug(s))
  {
  }

  lemma {:induction false} SlugCharsOfSlug(s: string)
    requires forall i :: 0 <= i < |s| ==> IsSlugChar(s[i])
    ensures SlugChars(s) == s
  {
    if s != "" {
      SlugCharsOfSlug(s[1..]);
      assert s == [s[0]] + s[1..];
    }
  }

  lemma SlugOfSlug(s: string)
    requires IsSlug(s)
    ensures Slug(s) == s
  {
    assert Trimmed(s);
    SlugCharsOfSlug(s);
  }

  /** Letters, digits, spaces, hyphens and underscores are spelled one by one, capitals as small letters,
      spaces and hyphens as underscores. */
  lemma {:induction false} SlugSpells(s: string)
    requires forall i :: 0 <= i < |s| ==>
      'a' <= s[i] <= 'z' || 'A' <= s[i] <= 'Z' || '0' <= s[i] <= '9' || s[i] in {' ', '-', '_'}
    ensures |SlugChars(s)| == |s|
    ensures forall i :: 0 <= i < |s| ==>
      SlugChars(s)[i] ==
        if 'A' <= s[i] <= 'Z' then (s[i] as int + 32) as char else if s[i] == ' ' || s[i] == '-' then '_' else s[i]
  {
    if s != "" { SlugSpells(s[1..]); }
  }

  /** Blanks around an id make no difference. */
  lemma SlugIgnoresBlanks(b: string, s: string, e: string)
    requires Blank(b) && Blank(e)
    ensures Slug(b + s + e) == Slug(s)
  {
    StripIgnoresBlanks(b, s, e);
  }

  /** Everything else vanishes, but for the two characters whose lower case holds an ASCII letter. */
  lemma {:induction false} OthersVanish(s: string)
    requires forall i :: 0 <= i < |s| ==>
      !('a' <= s[i] <= 'z') && !('A' <= s[i] <= 'Z') && !('0' <= s[i] <= '9') && s[i] !in {' ', '-', '_'}
      && s[i] as int !in {0x130, 0x212A}
    ensures SlugChars(s) == "" && Slug(s) == "tache"
  {
    if s != "" { OthersVanish(s[1..]); }
    StripLeavesOthers(s);
  }

  lemma {:induction false} StripLeavesOthers(s: string)
    requires forall i :: 0 <= i < |s| ==> SlugChar(s[i]) == ""
    ensures SlugChars(Strip(s)) == ""
  {
    var i, j := StripCuts(s);
    AllVanish(Strip(s));
  }

  lemma {:induction false} AllVanish(s: string)
    requires forall i :: 0 <= i < |s| ==> SlugChar(s[i]) == ""
    ensures SlugChars(s) == ""
  {
    if s != "" { AllVanish(s[1..]); }
  }

  // ---------------------------------------------------------------- the new ids

  function RawIds(plan: Plan): (r: seq<string>)
    ensures |r| == |plan|
  {
    seq(|plan|, i requires 0 <= i < |plan| => plan[i].taskId)
  }

  function Slugs(plan: Plan): (r: seq<string>)
    ensures |r| == |plan|
  {
    seq(|plan|, i requires 0 <= i < |plan| => Slug(plan[i].taskId))
  }

  /** How many of the first n elements are b. */
  function Count(s: seq<string>, n: nat, b: string): nat
    requires n <= |s|
  {
    if n == 0 then 0 else Count(s, n - 1, b) + if s[n-1] == b then 1 else 0
  }

  /** The place of s[i] among its equals, counted from 1. */
  function Rank(s: seq<string>, i: nat): (r: nat)
    requires i < |s|
    ensures r >= 1
  {
    Count(s, i + 1, s[i])
  }

  /** The first step with a slug gets the slug, the k-th gets the suffix `_k`. */
  function Label(b: string, k: nat): string { if k <= 1 then b else b + "_" + Decimal(k) }

  function Labels(slugs: seq<string>): (r: seq<string>)
    ensures |r| == |slugs|
    ensures forall i {:trigger r[i]} :: 0 <= i < |slugs| ==> r[i] == Label(slugs[i], Rank(slugs, i))
  {
    seq(|slugs|, i requires 0 <= i < |slugs| => Label(slugs[i], Rank(slugs, i)))
  }

  /** A dictionary filled from left to right: the last entry for a key survives. */
  function Table(keys: seq<string>, labels: seq<string>, n: nat): map<string, string>
    requires n <= |keys| == |labels|
  {
    if n == 0 then map[] else Table(keys, labels, n - 1)[keys[n-1] := labels[n-1]]
  }

  /** `correspondance` once the plan has been read. */
  function IdTable(plan: Plan): map<string, string> {
    Table(RawIds(plan), Labels(Slugs(plan)), |plan|)
  }

  /** `correspondance.get(raw, _slugifier(raw))` */
  function Renamed(table: map<string, string>, raw: string): string {
    if raw in table then table[raw] else Slug(raw)
  }

  function RenamedAll(table: map<string, string>, deps: seq<string>): (r: seq<string>)
    ensures |r| == |deps| && forall k {:trigger r[k]} :: 0 <= k < |deps| ==> r[k] == Renamed(table, deps[k])
  {
    seq(|deps|, k requires 0 <= k < |deps| => Renamed(table, deps[k]))
  }

  function NewId(plan: Plan, raw: string): string { Renamed(IdTable(plan), raw) }

  function NewDeps(plan: Plan, deps: seq<string>): seq<string> { RenamedAll(IdTable(plan), deps) }

  function StepWith(table: map<string, string>, step: Step): Step {
    Step(Renamed(table, step.taskId), RenamedAll(table, step.dependsOn), step.rest)
  }

  function NewStep(plan: Plan, step: Step): Step { StepWith(IdTable(plan), step) }

  function Normalized(plan: Plan): (r: Plan)
    ensures |r| == |plan|
  {
    seq(|plan|, i requires 0 <= i < |plan| => NewStep(plan, plan[i]))
  }

  function NewIds(plan: Plan): seq<string> { RawIds(Normalized(plan)) }

  /** The pass renames ids and dependencies and copies everything else, step by step. */
  lemma TheRestIsCopied(plan: Plan, i: nat)
    requires i < |plan|
    ensures var step := Normalized(plan)[i];
      && step.rest == plan[i].rest && |step.dependsOn| == |plan[i].dependsOn|
      && step.taskId == NewId(plan, plan[i].taskId)
      && forall k :: 0 <= k < |step.dependsOn| ==> step.dependsOn[k] == NewId(plan, plan[i].dependsOn[k])
  {
  }

  // ---------------------------------------------------------------- counting

  lemma {:induction false} CountGrows(s: seq<string>, m: nat, n: nat, b: string)
    requires m <= n <= |s|
    ensures Count(s, m, b) <= Count(s, n, b)
    decreases n
  {
    if m < n { CountGrows(s, m, n - 1, b); }
  }

  lemma RanksDiffer(s: seq<string>, i: nat, j: nat)
    requires i < j < |s| && s[i] == s[j]
    ensures Rank(s, i) < Rank(s, j)
  {
    CountGrows(s, i + 1, j, s[i]);
  }

  lemma {:induction false} CountOfAbsent(s: seq<string>, n: nat, b: string)
    requires n <= |s| && forall k :: 0 <= k < n ==> s[k] != b
    ensures Count(s, n, b) == 0
  {
    if n > 0 { CountOfAbsent(s, n - 1, b); }
  }

  lemma {:induction false} FirstOccurrence(s: seq<string>, j: nat) returns (i: nat)
    requires j < |s|
    ensures i <= j && s[i] == s[j] && Rank(s, i) == 1
  {
    if k :| 0 <= k < j && s[k] == s[j] {
      i := FirstOccurrence(s, k);
    } else {
      i := j;
      CountOfAbsent(s, j, s[j]);
    }
  }

  // ---------------------------------------------------------------- labels

  /** A digit string after the last underscore splits in one way only. */
  lemma SuffixSplits(b: string, d: string, b': string, d': string)
    requires b + "_" + d == b' + "_" + d'
    requires forall i :: 0 <= i < |d| ==> IsDigit(d[i])
    requires forall i :: 0 <= i < |d'| ==> IsDigit(d'[i])
    ensures b == b' && d == d'
  {
    var s := b + "_" + d;
    assert s[|b|] == '_' && s[|b'|] == '_';
    assert forall p :: |b| < p < |s| ==> s[p] == d[p - |b| - 1];
    assert forall p :: |b'| < p < |s| ==> s[p] == d'[p - |b'| - 1];
    assert b == s[..|b|] && b' == s[..|b'|];
    assert d == s[|b|+1..] && d' == s[|b'|+1..];
  }

  /** Two labels are equal only if they are the same, or one slug is the other's suffixed label. */
  lemma LabelsDiffer(b: string, k: nat, b': string, k': nat)
    requires k >= 1 && k' >= 1 && (b != b' || k != k')
    requires k' >= 2 ==> b != Label(b', k')
    requires k >= 2 ==> b' != Label(b, k)
    ensures Label(b, k) != Label(b', k')
  {
    if Label(b, k) == Label(b', k') && k >= 2 && k' >= 2 {
      SuffixSplits(b, Decimal(k), b', Decimal(k'));
      DecimalIsInjective(k, k');
    }
  }

  // ---------------------------------------------------------------- when ids are unique

  predicate Distinct(s: seq<string>) { forall i, j :: 0 <= i < j < |s| ==> s[i] != s[j] }

  /** No slug of the plan equals a label with a generated suffix. */
  predicate NoClash(plan: Plan) {
    var s := Slugs(plan);
    forall i, j :: 0 <= i < |s| && 0 <= j < |s| && Rank(s, i) >= 2 ==> s[j] != Label(s[i], Rank(s, i))
  }

  /** The last of the first n places of a key. */
  function LastIndex(keys: seq<string>, n: nat, key: string): (i: nat)
    requires n <= |keys| && key in keys[..n]
    ensures i < n && keys[i] == key
    ensures forall j :: i < j < n ==> keys[j] != key
  {
    if keys[n-1] == key then n - 1 else LastIndex(keys, n - 1, key)
  }

  lemma {:induction false} TableHoldsLast(keys: seq<string>, labels: seq<string>, n: nat, key: string)
    requires n <= |keys| == |labels|
    ensures key in Table(keys, labels, n) <==> key in keys[..n]
    ensures key in Table(keys, labels, n) ==> Table(keys, labels, n)[key] == labels[LastIndex(keys, n, key)]
  {
    if n > 0 {
      TableHoldsLast(keys, labels, n - 1, key);
      assert keys[..n] == keys[..n-1] + [keys[n-1]];
    }
  }

  lemma IdOfRaw(plan: Plan, raw: string)
    ensures var keys := RawIds(plan);
      && keys[..|keys|] == keys
      && (raw in keys ==> NewId(plan, raw) == Labels(Slugs(plan))[LastIndex(keys, |keys|, raw)])
      && (raw !in keys ==> NewId(plan, raw) == Slug(raw))
  {
    var keys := RawIds(plan);
    assert keys[..|keys|] == keys;
    TableHoldsLast(keys, Labels(Slugs(plan)), |keys|, raw);
  }

  lemma {:induction false} TableOfDistinct(keys: seq<string>, labels: seq<string>, n: nat, i: nat)
    requires i < n <= |keys| == |labels| && Distinct(keys)
    ensures keys[i] in Table(keys, labels, n) && Table(keys, labels, n)[keys[i]] == labels[i]
  {
    if i < n - 1 { TableOfDistinct(keys, labels, n - 1, i); }
  }

  lemma IdOfStep(plan: Plan, i: nat)
    requires i < |plan| && Distinct(RawIds(plan))
    ensures NewId(plan, plan[i].taskId) == Labels(Slugs(plan))[i]
  {
    TableOfDistinct(RawIds(plan), Labels(Slugs(plan)), |plan|, i);
    assert RawIds(plan)[i] == plan[i].taskId;
  }

  lemma IdsAreLabels(plan: Plan)
    requires Distinct(RawIds(plan))
    ensures forall i :: 0 <= i < |plan| ==> NewIds(plan)[i] == Labels(Slugs(plan))[i]
  {
    forall i | 0 <= i < |plan| ensures NewIds(plan)[i] == Labels(Slugs(plan))[i] {
      IdOfStep(plan, i);
    }
  }

  /** The new ids are pairwise distinct exactly when the raw ids are and no slug clashes with
      a generated suffix; the unconditional promise of the source's documentation is false. */
  lemma NewIdsAreUniqueIff(plan: Plan)
    ensures Distinct(NewIds(plan)) <==> Distinct(RawIds(plan)) && NoClash(plan)
  {
    var s := Slugs(plan);
    if Distinct(RawIds(plan)) && NoClash(plan) {
      forall i, j | 0 <= i < j < |plan| ensures NewIds(plan)[i] != NewIds(plan)[j] {
        IdOfStep(plan, i);
        IdOfStep(plan, j);
        if s[i] == s[j] { RanksDiffer(s, i, j); }
        LabelsDiffer(s[i], Rank(s, i), s[j], Rank(s, j));
      }
    }
    if Distinct(NewIds(plan)) {
      forall i, j | 0 <= i < j < |plan| ensures RawIds(plan)[i] != RawIds(plan)[j] {
        assert NewIds(plan)[i] != NewIds(plan)[j];
      }
      forall i, j | 0 <= i < |s| && 0 <= j < |s| && Rank(s, i) >= 2
        ensures s[j] != Label(s[i], Rank(s, i))
      {
        var f := FirstOccurrence(s, j);
        IdOfStep(plan, i);
        IdOfStep(plan, f);
        assert f != i;
        assert NewIds(plan)[i] == Label(s[i], Rank(s, i)) && NewIds(plan)[f] == s[j];
      }
    }
  }

  /** Every plan of this shape clashes: two raw ids share a slug and a third has the suffixed slug. */
  lemma ClashFamily(plan: Plan, b: string)
    requires |plan| == 3 && Distinct(RawIds(plan))
    requires Slugs(plan)[0] == b && Slugs(plan)[1] == b && Slugs(plan)[2] == Label(b, 2)
    ensures NewIds(plan)[0] == b && NewIds(plan)[1] == NewIds(plan)[2] == Label(b, 2)
  {
    RanksOfFamily(Slugs(plan), b);
    IdsAreLabels(plan);
  }

  lemma RanksOfFamily(s: seq<string>, b: string)
    requires |s| == 3 && s[0] == b && s[1] == b && s[2] == Label(b, 2)
    ensures Rank(s, 0) == 1 && Rank(s, 1) == 2 && Rank(s, 2) == 1
  {
    assert Count(s, 0, b) == 0 && Count(s, 1, b) == 1 && Count(s, 2, b) == 2;
    assert |Label(b, 2)| == |b| + 1 + |Decimal(2)|;
    CountOfAbsent(s, 2, s[2]);
  }

  /** Its smallest member: raw ids a, A, a_2 become a, a_2, a_2. */
  lemma ClashExample(plan: Plan)
    requires RawIds(plan) == ["a", "A", "a_2"]
    ensures Distinct(RawIds(plan))
    ensures NewIds(plan)[0] == "a" && NewIds(plan)[1] == NewIds(plan)[2] == Label("a", 2)
  {
    var raw := RawIds(plan);
    RawIdsOfExampleDiffer(raw);
    SlugsOfExample(raw);
    assert Slugs(plan)[0] == Slug(raw[0]) && Slugs(plan)[1] == Slug(raw[1]) && Slugs(plan)[2] == Slug(raw[2]);
    ClashFamily(plan, "a");
  }

  lemma RawIdsOfExampleDiffer(raw: seq<string>)
    requires raw == ["a", "A", "a_2"]
    ensures Distinct(raw)
  {
    assert raw[0] != raw[1] && raw[0] != raw[2] && raw[1] != raw[2];
  }

  lemma SlugsOfExample(raw: seq<string>)
    requires raw == ["a", "A", "a_2"]
    ensures Slug(raw[0]) == "a" && Slug(raw[1]) == "a" && Slug(raw[2]) == Label("a", 2)
  {
    SlugOfSmallA();
    SlugOfCapitalA();
    SlugOfSuffixedA();
    LabelOfExample();
  }

  lemma SlugOfSmallA()
    ensures Slug("a") == "a"
  {
    SlugOfSlug("a");
  }

  lemma SlugOfCapitalA()
    ensures Slug("A") == "a"
  {
    assert SlugChars("A"[1..]) == "";
    assert SlugChars("A") == "a";
  }

  lemma SlugOfSuffixedA()
    ensures Slug("a_2") == "a_2"
  {
    SlugOfSlug("a_2");
  }

  lemma LabelOfExample()
    ensures Label("a", 2) == "a_2"
  {
    assert Decimal(2) == "2";
  }

  // ---------------------------------------------------------------- the source's own form

  /** `compteurs` after n steps. */
  ghost function Counters(slugs: seq<string>, n: nat): map<string, nat>
    requires n <= |slugs|
  {
    if n == 0 then map[] else Counters(slugs, n - 1)[slugs[n-1] := Rank(slugs, n - 1)]
  }

  lemma {:induction false} CountersCount(slugs: seq<string>, n: nat, b: string)
    requires n <= |slugs|
    ensures b in Counters(slugs, n) <==> Count(slugs, n, b) > 0
    ensures b in Counters(slugs, n) ==> Counters(slugs, n)[b] == Count(slugs, n, b)
  {
    if n > 0 { CountersCount(slugs, n - 1, b); }
  }

  /** The body of the first loop: count the slug and make the id unique. */
  method NextLabel(base: string, counters: map<string, nat>, ghost slugs: seq<string>, ghost i: nat)
    returns (newId: string, counters': map<string, nat>)
    requires i < |slugs| && base == slugs[i] && counters == Counters(slugs, i)
    ensures newId == Labels(slugs)[i] && counters' == Counters(slugs, i + 1)
  {
    CountersCount(slugs, i, base);
    if base in counters {
      counters' := counters[base := counters[base] + 1];
      newId := base + "_" + Decimal(counters'[base]);
    } else {
      counters' := counters[base := 1];
      newId := base;
    }
  }

  // The passes of `_slugifier`, one after the other.  The table of lower cases is a parameter.

  type Lowering = char -> string

  predicate Plain(c: char) { IsSlugChar(c) || c == ' ' || c == '-' }

  /** What the passes need of `str.lower`: ASCII as expected, and elsewhere no ASCII letter but those of
      the Kelvin sign and of the dotted capital I, which keeps a combining dot. */
  predicate LowersTo(c: char, r: string) {
    if Plain(c) then r == [c]
    else if 'A' <= c <= 'Z' then r == [(c as int + 32) as char]
    else if c as int == 0x212A then r == "k"
    else if c as int == 0x130 then |r| == 2 && r[0] == 'i' && !Plain(r[1])
    else forall i :: 0 <= i < |r| ==> !Plain(r[i])
  }

  ghost predicate LowerOk(lower: Lowering) { forall c :: LowersTo(c, lower(c)) }

  function LowerAll(s: string, lower: Lowering): string {
    if s == "" then "" else LowerAll(s[..|s|-1], lower) + lower(s[|s|-1])
  }

  /** replace(c, "_") */
  function ReplaceAll(s: string, c: char): string {
    if s == "" then "" else ReplaceAll(s[..|s|-1], c) + [if s[|s|-1] == c then '_' else s[|s|-1]]
  }

  /** re.sub("[^a-z0-9_]", "") */
  function KeepSlugChars(s: string): string {
    if s == "" then "" else KeepSlugChars(s[..|s|-1]) + if IsSlugChar(s[|s|-1]) then [s[|s|-1]] else ""
  }

  function Passed(s: string): string { KeepSlugChars(ReplaceAll(ReplaceAll(s, ' '), '-')) }

  lemma {:induction false} ReplaceOfSum(a: string, b: string, c: char)
    ensures ReplaceAll(a + b, c) == ReplaceAll(a, c) + ReplaceAll(b, c)
  {
    if b == "" {
      assert a + b == a;
    } else {
      assert (a + b)[..|a + b|-1] == a + b[..|b|-1];
      ReplaceOfSum(a, b[..|b|-1], c);
    }
  }

  lemma {:induction false} KeepOfSum(a: string, b: string)
    ensures KeepSlugChars(a + b) == KeepSlugChars(a) + KeepSlugChars(b)
  {
    if b == "" {
      assert a + b == a;
    } else {
      assert (a + b)[..|a + b|-1] == a + b[..|b|-1];
      KeepOfSum(a, b[..|b|-1]);
    }
  }

  lemma PassedOfSum(a: string, b: string)
    ensures Passed(a + b) == Passed(a) + Passed(b)
  {
    ReplaceOfSum(a, b, ' ');
    ReplaceOfSum(ReplaceAll(a, ' '), ReplaceAll(b, ' '), '-');
    KeepOfSum(ReplaceAll(ReplaceAll(a, ' '), '-'), ReplaceAll(ReplaceAll(b, ' '), '-'));
  }

  lemma ReplaceOfOne(d: char, c: char)
    ensures ReplaceAll([d], c) == [if d == c then '_' else d]
  {
    assert [d][..0] == "" && [d][|[d]|-1] == d;
  }

  lemma KeepOfOne(d: char)
    ensures KeepSlugChars([d]) == if IsSlugChar(d) then [d] else ""
  {
    assert [d][..0] == "" && [d][|[d]|-1] == d;
  }

  /** One character through the three passes. */
  lemma PassedOfOne(d: char)
    ensures Passed([d]) == if IsSlugChar(d) then [d] else if Plain(d) then "_" else ""
  {
    var e := if d == ' ' then '_' else d;
    var f := if e == '-' then '_' else e;
    ReplaceOfOne(d, ' ');
    ReplaceOfOne(e, '-');
    KeepOfOne(f);
  }

  lemma {:induction false} PassedOfNone(r: string)
    requires forall i :: 0 <= i < |r| ==> !Plain(r[i])
    ensures Passed(r) == ""
  {
    if r != "" {
      var n := |r| - 1;
      PassedOfNone(r[..n]);
      PassedOfSum(r[..n], [r[n]]);
      PassedOfOne(r[n]);
      assert r == r[..n] + [r[n]];
    }
  }

  lemma PassedOfLowered(c: char, r: string)
    requires LowersTo(c, r)
    ensures Passed(r) == SlugChar(c)
  {
    if |r| == 1 { assert r == [r[0]]; PassedOfOne(r[0]); }
    if c as int == 0x130 {
      PassedOfOne(r[0]);
      PassedOfOne(r[1]);
      PassedOfSum([r[0]], [r[1]]);
      assert r == [r[0]] + [r[1]];
    } else if !Plain(c) && !('A' <= c <= 'Z') && c as int != 0x212A {
      PassedOfNone(r);
    }
  }

  lemma {:induction false} SlugCharsOfSum(a: string, b: string)
    ensures SlugChars(a + b) == SlugChars(a) + SlugChars(b)
  {
    if a == "" {
      assert a + b == b;
    } else {
      assert (a + b)[1..] == a[1..] + b;
      SlugCharsOfSum(a[1..], b);
    }
  }

  /** The passes over a whole text are the slug characters of its characters. */
  lemma {:induction false} PassesAreSlugChars(s: string, lower: Lowering)
    requires LowerOk(lower)
    ensures Passed(LowerAll(s, lower)) == SlugChars(s)
  {
    if s != "" {
      var n := |s| - 1;
      PassesAreSlugChars(s[..n], lower);
      PassedOfSum(LowerAll(s[..n], lower), lower(s[n]));
      PassedOfLowered(s[n], lower(s[n]));
      SlugCharsOfSum(s[..n], [s[n]]);
      assert s == s[..n] + [s[n]];
      assert SlugChars([s[n]]) == SlugChar(s[n]) + SlugChars("") by { assert [s[n]][1..] == ""; }
    }
  }

  method Replace(s: string, c: char) returns (r: string)
    ensures r == ReplaceAll(s, c)
  {
    r := "";
    for i := 0 to |s|
      invariant r == ReplaceAll(s[..i], c)
    {
      assert s[..i+1][..i] == s[..i];
      r := r + [if s[i] == c then '_' else s[i]];
    }
    assert s[..|s|] == s;
  }

  method Slugify(raw: string, lower: Lowering) returns (base: string)
    requires LowerOk(lower)
    ensures base == Slug(raw)
  {
    var stripped := Strip(raw);
    var lowered := "";
    for i := 0 to |stripped|
      invariant lowered == LowerAll(stripped[..i], lower)
    {
      assert stripped[..i+1][..i] == stripped[..i];
      lowered := lowered + lower(stripped[i]);
    }
    assert stripped[..|stripped|] == stripped;
    var spaced := Replace(lowered, ' ');
    var brut := Replace(spaced, '-');
    base := "";
    for i := 0 to |brut|
      invariant base == KeepSlugChars(brut[..i])
    {
      assert brut[..i+1][..i] == brut[..i];
      if IsSlugChar(brut[i]) { base := base + [brut[i]]; }
    }
    assert brut[..|brut|] == brut;
    PassesAreSlugChars(stripped, lower);
    if base == "" { base := "tache"; }
  }

  method SlugOfStep(plan: Plan, i: nat, lower: Lowering) returns (base: string)
    requires i < |plan| && LowerOk(lower)
    ensures base == Slugs(plan)[i]
  {
    base := Slugify(plan[i].taskId, lower);
  }

  /** The two dictionaries, filled step by step. */
  method Correspondence(plan: Plan, lower: Lowering) returns (correspondence: map<string, string>)
    requires LowerOk(lower)
    ensures correspondence == IdTable(plan)
  {
    correspondence := map[];
    var counters: map<string, nat> := map[];
    ghost var slugs := Slugs(plan);
    for i := 0 to |plan|
      invariant counters == Counters(slugs, i)
      invariant correspondence == Table(RawIds(plan), Labels(slugs), i)
    {
      var base := SlugOfStep(plan, i, lower);
      var newId;
      newId, counters := NextLabel(base, counters, slugs, i);
      correspondence := correspondence[plan[i].taskId := newId];
    }
  }

  method RewriteDeps(correspondence: map<string, string>, deps: seq<string>) returns (r: seq<string>)
    ensures r == RenamedAll(correspondence, deps)
  {
    r := [];
    for k := 0 to |deps|
      invariant r == RenamedAll(correspondence, deps)[..k]
    {
      r := r + [Renamed(correspondence, deps[k])];
    }
  }

  /** The rewriting loop, for any dictionary. */
  method RewritePlan(correspondence: map<string, string>, plan: Plan) returns (renamed: Plan)
    ensures |renamed| == |plan|
    ensures forall i :: 0 <= i < |plan| ==> renamed[i] == StepWith(correspondence, plan[i])
  {
    renamed := [];
    for i := 0 to |plan|
      invariant |renamed| == i
      invariant forall j :: 0 <= j < i ==> renamed[j] == StepWith(correspondence, plan[j])
    {
      var deps := RewriteDeps(correspondence, plan[i].dependsOn);
      renamed := renamed + [Step(Renamed(correspondence, plan[i].taskId), deps, plan[i].rest)];
    }
  }

  method NormalizeTaskIds(plan: Plan, lower: Lowering) returns (renamed: Plan)
    requires LowerOk(lower)
    ensures renamed == Normalized(plan)
  {
    var correspondence := Correspondence(plan, lower);
    renamed := RewritePlan(correspondence, plan);
  }

  // ---------------------------------------------------------------- the pass is idempotent

  lemma NewIdIsSlug(plan: Plan, raw: string)
    ensures IsSlug(NewId(plan, raw))
  {
    IdOfRaw(plan, raw);
    var keys := RawIds(plan);
    if raw in keys {
      SlugIsSlug(plan[LastIndex(keys, |keys|, raw)].taskId);
    } else {
      SlugIsSlug(raw);
    }
  }

  lemma {:induction false} CountOfUnique(s: seq<string>, n: nat, i: nat)
    requires i < n <= |s| && Distinct(s)
    ensures Count(s, n, s[i]) == 1
  {
    if n == i + 1 { CountOfAbsent(s, i, s[i]); } else { CountOfUnique(s, n - 1, i); }
  }

  /** Every id and every dependency is a slug. */
  ghost predicate Slugged(plan: Plan) {
    forall i :: 0 <= i < |plan| ==>
      IsSlug(plan[i].taskId) && forall d :: d in plan[i].dependsOn ==> IsSlug(d)
  }

  lemma NormalizedIsSlugged(plan: Plan)
    ensures Slugged(Normalized(plan))
  {
    forall i | 0 <= i < |plan|
      ensures IsSlug(NewStep(plan, plan[i]).taskId)
      ensures forall d :: d in NewStep(plan, plan[i]).dependsOn ==> IsSlug(d)
    {
      NewIdIsSlug(plan, plan[i].taskId);
      forall d | d in NewStep(plan, plan[i]).dependsOn ensures IsSlug(d) {
        var deps := NewDeps(plan, plan[i].dependsOn);
        var k :| 0 <= k < |deps| && deps[k] == d;
        NewIdIsSlug(plan, plan[i].dependsOn[k]);
      }
    }
  }

  /** A plan whose ids are distinct slugs is left alone. */
  lemma SluggedIsFixed(plan: Plan)
    requires Distinct(RawIds(plan)) && Slugged(plan)
    ensures Normalized(plan) == plan
  {
    forall i | 0 <= i < |plan| ensures NewStep(plan, plan[i]) == plan[i] {
      SlugIsKept(plan, plan[i].taskId);
      var deps := plan[i].dependsOn;
      forall k | 0 <= k < |deps| ensures NewDeps(plan, deps)[k] == deps[k] {
        assert deps[k] in deps;
        SlugIsKept(plan, deps[k]);
      }
      assert NewDeps(plan, deps) == deps;
    }
  }

  lemma SlugsOfSlugged(plan: Plan)
    requires Slugged(plan)
    ensures Slugs(plan) == RawIds(plan)
  {
    forall i | 0 <= i < |plan| ensures Slugs(plan)[i] == RawIds(plan)[i] { SlugOfSlug(plan[i].taskId); }
  }

  lemma SlugIsKept(plan: Plan, raw: string)
    requires Distinct(RawIds(plan)) && Slugged(plan) && IsSlug(raw)
    ensures NewId(plan, raw) == raw
  {
    var keys := RawIds(plan);
    SlugsOfSlugged(plan);
    IdOfRaw(plan, raw);
    if raw in keys {
      var i := LastIndex(keys, |keys|, raw);
      CountOfUnique(keys, i + 1, i);
      assert Rank(keys, i) == 1 && Label(keys[i], 1) == raw;
    } else {
      SlugOfSlug(raw);
    }
  }

  /** A repeated id among slugs is renamed again. */
  lemma RepeatedIdsChange(once: Plan)
    requires Slugged(once) && !Distinct(RawIds(once))
    ensures RawIds(Normalized(once)) != RawIds(once)
  {
    var keys, s := RawIds(once), Slugs(once);
    var i, j :| 0 <= i < j < |once| && keys[i] == keys[j];
    var v := once[i].taskId;
    assert v == keys[i] && v == keys[j];
    IdOfRaw(once, v);
    var l := LastIndex(keys, |keys|, v);
    SlugOfSlug(v);
    assert s[i] == s[l] == v && i < l;
    RanksDiffer(s, i, l);
    assert Normalized(once)[i].taskId == Label(v, Rank(s, l));
    assert |Label(v, Rank(s, l))| > |v|;
    assert RawIds(Normalized(once))[i] == Normalized(once)[i].taskId;
  }

  /** Renaming twice is renaming once exactly when the first pass gave distinct ids. */
  lemma RenamingIsIdempotentIff(plan: Plan)
    ensures Normalized(Normalized(plan)) == Normalized(plan) <==> Distinct(NewIds(plan))
  {
    NormalizedIsSlugged(plan);
    if Distinct(NewIds(plan)) { SluggedIsFixed(Normalized(plan)); } else { RepeatedIdsChange(Normalized(plan)); }
  }

  // ---------------------------------------------------------------- ghost dependencies

  /** The dependencies kept by `elaguer_dependances_fantomes`, in order. */
  function Kept(deps: seq<string>, known: seq<string>): seq<string> {
    if deps == [] then []
    else (if deps[0] in known then [deps[0]] else []) + Kept(deps[1..], known)
  }

  lemma {:induction false} KeptMembers(deps: seq<string>, known: seq<string>, d: string)
    ensures d in Kept(deps, known) <==> d in deps && d in known
  {
    if deps != [] {
      KeptMembers(deps[1..], known, d);
      assert deps == [deps[0]] + deps[1..];
    }
  }

  function Pruned(plan: Plan): (r: Plan)
    ensures |r| == |plan|
  {
    seq(|plan|, i requires 0 <= i < |plan| => plan[i].(dependsOn := Kept(plan[i].dependsOn, RawIds(plan))))
  }

  /** The cut changes nothing but the dependencies. */
  lemma CutKeepsTheRest(plan: Plan, i: nat)
    requires i < |plan|
    ensures Pruned(plan)[i].taskId == plan[i].taskId && Pruned(plan)[i].rest == plan[i].rest
    ensures forall d :: d in Pruned(plan)[i].dependsOn <==> d in plan[i].dependsOn && d in RawIds(plan)
  {
    forall d { KeptMembers(plan[i].dependsOn, RawIds(plan), d); }
  }

  lemma {:induction false} KeptSnoc(deps: seq<string>, d: string, known: seq<string>)
    ensures Kept(deps + [d], known) == Kept(deps, known) + if d in known then [d] else []
  {
    if deps == [] {
      assert Kept([], known) == [] && [d][1..] == [];
    } else {
      KeptSnoc(deps[1..], d, known);
      assert (deps + [d])[1..] == deps[1..] + [d];
      var h, e := if deps[0] in known then [deps[0]] else [], if d in known then [d] else [];
      assert h + (Kept(deps[1..], known) + e) == (h + Kept(deps[1..], known)) + e;
    }
  }

  method PruneGhostDependencies(plan: Plan) returns (pruned: Plan)
    ensures pruned == Pruned(plan)
  {
    pruned := [];
    for i := 0 to |plan|
      invariant |pruned| == i
      invariant forall j :: 0 <= j < i ==> pruned[j] == Pruned(plan)[j]
    {
      var kept: seq<string> := [];
      var deps := plan[i].dependsOn;
      for k := 0 to |deps|
        invariant kept == Kept(deps[..k], RawIds(plan))
      {
        KeptSnoc(deps[..k], deps[k], RawIds(plan));
        assert deps[..k+1] == deps[..k] + [deps[k]];
        if deps[k] in RawIds(plan) { kept := kept + [deps[k]]; }
      }
      assert deps[..|deps|] == deps;
      pruned := pruned + [plan[i].(dependsOn := kept)];
    }
  }
}
