/** The usage ledger `billing_history` and its sliding windows (core/budget_guard.py,
    `quota_gratuit_epuise` and `record_usage`). */
module UsageLedger {
  import opened Backlog
  import opened Providers

  const DAY: Time := 86400.0

  /** How long a provider stays aside after a failure blamed on it. */
  const COOLDOWN: Time := 1800.0

  /** One recorded call.  `blind` is a history variable, not a column: the election that led to
      this record could not read the ledger. */
  datatype Entry = Entry(provider: Provider, at: Time, blind: bool)
  type Ledger = seq<Entry>

  /** SELECT COUNT(*) ... WHERE provider = p AND timestamp > since */
  function CountAfter(l: Ledger, p: Provider, since: Time): nat {
    if l == [] then 0
    else
      var e := l[|l|-1];
      CountAfter(l[..|l|-1], p, since) + (if e.provider == p && e.at > since then 1 else 0)
  }

  predicate InWindow(e: Entry, p: Provider, until: Time) {
    e.provider == p && until - DAY < e.at <= until
  }

  /** The rows of p in the day that ends at `until`. */
  function CountIn(l: Ledger, p: Provider, until: Time): nat {
    if l == [] then 0
    else CountIn(l[..|l|-1], p, until) + (if InWindow(l[|l|-1], p, until) then 1 else 0)
  }

  /** Those of them whose election was blind. */
  function BlindIn(l: Ledger, p: Provider, until: Time): nat {
    if l == [] then 0
    else
      var e := l[|l|-1];
      BlindIn(l[..|l|-1], p, until) + (if InWindow(e, p, until) && e.blind then 1 else 0)
  }

  /** The window holds at most `limit` rows of p, blind ones apart, or no more of them than it did in
      the ledger l0 from which l has grown. */
  predicate WindowBounded(l0: Ledger, l: Ledger, p: Provider, limit: nat, until: Time) {
    || CountIn(l, p, until) <= limit + BlindIn(l, p, until)
    || CountIn(l, p, until) - BlindIn(l, p, until) <= CountIn(l0, p, until) - BlindIn(l0, p, until)
  }

  /** The count is the number of calls of p dated after `since`. */
  lemma {:induction false} CountAfterIsTheNumber(l: Ledger, p: Provider, since: Time)
    ensures CountAfter(l, p, since) == |set i | 0 <= i < |l| && l[i].provider == p && l[i].at > since|
  {
    var all := set i | 0 <= i < |l| && l[i].provider == p && l[i].at > since;
    if l == [] {
      assert all == {};
    } else {
      var n := |l| - 1;
      var init := l[..n];
      var before := set i | 0 <= i < |init| && init[i].provider == p && init[i].at > since;
      CountAfterIsTheNumber(init, p, since);
      forall i: int ensures i in all <==> i in before || (i == n && l[n].provider == p && l[n].at > since) {
        if 0 <= i < n { assert init[i] == l[i]; }
      }
      assert n !in before;
      assert all == if l[n].provider == p && l[n].at > since then before + {n} else before;
    }
  }

  /** The count in a window is the number of calls of p dated in the day that it closes. */
  lemma {:induction false} CountInIsTheNumber(l: Ledger, p: Provider, until: Time)
    ensures CountIn(l, p, until)
      == |set i | 0 <= i < |l| && l[i].provider == p && until - 86400.0 < l[i].at <= until|
  {
    var all := set i | 0 <= i < |l| && l[i].provider == p && until - 86400.0 < l[i].at <= until;
    if l == [] {
      assert all == {};
    } else {
      var n := |l| - 1;
      var init := l[..n];
      var before := set i | 0 <= i < |init| && init[i].provider == p && until - 86400.0 < init[i].at <= until;
      CountInIsTheNumber(init, p, until);
      forall i: int ensures i in all <==> i in before || (i == n && InWindow(l[n], p, until)) {
        if 0 <= i < n { assert init[i] == l[i]; }
      }
      assert n !in before;
      assert all == if InWindow(l[n], p, until) then before + {n} else before;
    }
  }

  /** As long as no call is dated in the future, what the query counts is the day that ends now. */
  lemma {:induction false} QueryIsTheLastDay(l: Ledger, p: Provider, now: Time)
    requires forall i :: 0 <= i < |l| ==> l[i].at <= now
    ensures CountAfter(l, p, now - DAY) == CountIn(l, p, now)
  {
    if l != [] { QueryIsTheLastDay(l[..|l|-1], p, now); }
  }

  lemma {:induction false} CountInAtMostAfter(l: Ledger, p: Provider, since: Time, until: Time)
    requires since <= until - DAY
    ensures CountIn(l, p, until) <= CountAfter(l, p, since)
  {
    if l != [] { CountInAtMostAfter(l[..|l|-1], p, since, until); }
  }

  lemma {:induction false} CountAfterShrinks(l: Ledger, p: Provider, since: Time, since': Time)
    requires since' <= since
    ensures CountAfter(l, p, since) <= CountAfter(l, p, since')
  {
    if l != [] { CountAfterShrinks(l[..|l|-1], p, since, since'); }
  }

  lemma CountOfOther(l: Ledger, e: Entry, p: Provider, since: Time)
    requires e.provider != p
    ensures CountAfter(l + [e], p, since) == CountAfter(l, p, since)
  {
    assert (l + [e])[..|l|] == l;
  }

  lemma WindowAfterRecord(l: Ledger, p: Provider, e: Entry, until: Time)
    ensures CountIn(l + [e], p, until) == CountIn(l, p, until) + if InWindow(e, p, until) then 1 else 0
    ensures BlindIn(l + [e], p, until) == BlindIn(l, p, until) + if InWindow(e, p, until) && e.blind then 1 else 0
  {
    assert (l + [e])[..|l|] == l;
  }

  /** A record whose election saw room leaves at most `limit` rows, blind ones included, in every
      window that contains it, wherever its time falls after that election. */
  lemma RecordHasRoom(l: Ledger, p: Provider, limit: nat, e: Entry, electedAt: Time, until: Time)
    requires electedAt <= e.at && CountAfter(l, p, electedAt - DAY) < limit && InWindow(e, p, until)
    ensures CountIn(l + [e], p, until) <= limit
  {
    WindowAfterRecord(l, p, e, until);
    CountInAtMostAfter(l, p, electedAt - DAY, until);
  }

  /** So it keeps every window bounded; a blind record does too. */
  lemma RecordKeepsWindows(
      l0: Ledger, l: Ledger, p: Provider, limit: nat, e: Entry, electedAt: Time, until: Time)
    requires WindowBounded(l0, l, p, limit, until)
    requires electedAt <= e.at
    requires e.provider == p && !e.blind ==> CountAfter(l, p, electedAt - DAY) < limit
    ensures WindowBounded(l0, l + [e], p, limit, until)
  {
    WindowAfterRecord(l, p, e, until);
    if InWindow(e, p, until) && !e.blind { RecordHasRoom(l, p, limit, e, electedAt, until); }
  }
}
