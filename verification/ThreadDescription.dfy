/** DescribeThread: announcing a thread and its creators, each at most once. */
module ThreadDescription {
  import opened Wrappers

  const MAIN: nat := 0

  class Context {
    const tid: nat
    const parent: nat
    var announced: bool

    constructor (tid: nat, parent: nat)
      ensures this.tid == tid && this.parent == parent && !announced
    {
      this.tid, this.parent, announced := tid, parent, false;
    }
  }

  /** Every thread's creator is unknown or a registered thread; creators may form cycles. */
  predicate Registered(parents: seq<nat>) {
    |parents| <= INVALID_TID && forall t :: 0 <= t < |parents| ==> parents[t] == INVALID_TID || parents[t] < |parents|
  }

  ghost function Tids(parents: seq<nat>): (r: set<nat>)
    ensures forall t: nat :: t in r <==> t < |parents|
  {
    if parents == [] then {} else Tids(parents[1..]) + {|parents| - 1}
  }

  /** The announcements one call prints, in order. */
  ghost function Announce(parents: seq<nat>, announced: set<nat>, t: nat, full: bool): seq<nat>
    requires Registered(parents) && t < |parents|
    decreases Tids(parents) - announced
  {
    if t == MAIN || t in announced then []
    else if parents[t] == INVALID_TID || !full then [t]
    else [t] + Announce(parents, announced + {t}, parents[t], full)
  }

  ghost function Elements(s: seq<nat>): set<nat> { set x | x in s }

  ghost predicate Distinct(s: seq<nat>) {
    forall i, j :: 0 <= i < j < |s| ==> s[i] != s[j]
  }

  /** Whoever has been announced, so have its known creators other than the
      main thread; `pending` is a creator about to be described. */
  ghost predicate Closed(parents: seq<nat>, announced: set<nat>, pending: nat) {
    forall t :: t in announced && t < |parents| && parents[t] !in {INVALID_TID, MAIN} && parents[t] != pending ==>
      parents[t] in announced
  }

  /** One call announces only threads not announced before, none twice, never
      the main thread, and t itself unless it is the main thread or was. */
  lemma {:induction false} AnnouncesOnce(parents: seq<nat>, announced: set<nat>, t: nat, full: bool)
    requires Registered(parents) && t < |parents|
    ensures var told := Announce(parents, announced, t, full);
      && Distinct(told) && Elements(told) !! announced && MAIN !in told
      && (t == MAIN || t in announced + Elements(told))
      && (forall x :: x in told ==> x < |parents|)
    decreases Tids(parents) - announced
  {
    if t != MAIN && t !in announced && parents[t] != INVALID_TID && full {
      AnnouncesOnce(parents, announced + {t}, parents[t], full);
      var rest := Announce(parents, announced + {t}, parents[t], full);
      assert forall x :: x in rest ==> x in Elements(rest);
      assert t !in rest;
    }
  }

  /** One call starts with the thread asked for, each further announcement is of
      the creator of the one before, and there are further ones only with full
      history on: then it goes on until a creator is unknown, the main thread, or
      announced already. */
  lemma {:induction false} AnnouncesChain(parents: seq<nat>, announced: set<nat>, t: nat, full: bool)
    requires Registered(parents) && t < |parents|
    ensures var told := Announce(parents, announced, t, full);
      && (told == [] <==> t == MAIN || t in announced)
      && (told != [] ==> told[0] == t)
      && (forall k :: 0 <= k < |told| ==> told[k] < |parents|)
      && (forall k :: 0 < k < |told| ==> told[k] == parents[told[k - 1]])
      && (!full ==> |told| <= 1)
      && (full && told != [] ==>
            var creator := parents[told[|told| - 1]];
            creator == INVALID_TID || creator == MAIN || creator in announced || creator in told)
    decreases Tids(parents) - announced
  {
    if t != MAIN && t !in announced && parents[t] != INVALID_TID && full {
      AnnouncesChain(parents, announced + {t}, parents[t], full);
      var rest := Announce(parents, announced + {t}, parents[t], full);
      var told := [t] + rest;
      forall k | 0 < k < |told| ensures told[k] == parents[told[k - 1]] {
        if k > 1 { assert told[k] == rest[k - 1] && told[k - 1] == rest[k - 2]; }
      }
      if rest != [] { assert told[|told| - 1] == rest[|rest| - 1]; }
    }
  }

  /** With full history on, a call leaves the announced set closed under known creators. */
  lemma {:induction false} StaysClosed(parents: seq<nat>, announced: set<nat>, t: nat)
    requires Registered(parents) && t < |parents| && Closed(parents, announced, t)
    ensures Closed(parents, announced + Elements(Announce(parents, announced, t, true)), MAIN)
    decreases Tids(parents) - announced
  {
    var told := Announce(parents, announced, t, true);
    if t == MAIN || t in announced {
      assert Elements(told) == {};
      assert announced + {} == announced;
    } else if parents[t] == INVALID_TID {
      assert Elements(told) == {t};
    } else {
      var rest := Announce(parents, announced + {t}, parents[t], true);
      StaysClosed(parents, announced + {t}, parents[t]);
      assert Elements(told) == {t} + Elements(rest);
      assert announced + Elements(told) == announced + {t} + Elements(rest);
    }
  }

  lemma DistinctConcat(a: seq<nat>, b: seq<nat>)
    requires Distinct(a) && Distinct(b) && Elements(a) !! Elements(b)
    ensures Distinct(a + b) && Elements(a + b) == Elements(a) + Elements(b)
  {
    forall i, j | 0 <= i < j < |a + b| ensures (a + b)[i] != (a + b)[j] {
      if i < |a| <= j { assert a[i] in Elements(a) && b[j - |a|] in Elements(b); }
    }
  }

  /** The report over a series of calls. */
  ghost function AnnounceAll(parents: seq<nat>, announced: set<nat>, ts: seq<nat>): seq<nat>
    requires Registered(parents) && forall i :: 0 <= i < |ts| ==> ts[i] < |parents|
    decreases |ts|
  {
    if ts == [] then []
    else
      var first := Announce(parents, announced, ts[0], true);
      first + AnnounceAll(parents, announced + Elements(first), ts[1..])
  }

  /** Over any series of calls no thread is announced twice, every thread
      asked for is, and the announced set stays closed under known creators. */
  lemma {:induction false} SeriesAnnouncesOnce(parents: seq<nat>, announced: set<nat>, ts: seq<nat>)
    requires Registered(parents) && (forall i :: 0 <= i < |ts| ==> ts[i] < |parents|)
    requires Closed(parents, announced, MAIN)
    ensures var told := AnnounceAll(parents, announced, ts);
      && Distinct(told) && Elements(told) !! announced
      && Closed(parents, announced + Elements(told), MAIN)
      && (forall i :: 0 <= i < |ts| ==> ts[i] == MAIN || ts[i] in announced + Elements(told))
    decreases |ts|
  {
    if ts == [] {
      assert announced + Elements([]) == announced;
    } else {
      var first := Announce(parents, announced, ts[0], true);
      var after := announced + Elements(first);
      AnnouncesOnce(parents, announced, ts[0], true);
      StaysClosed(parents, announced, ts[0]);
      SeriesAnnouncesOnce(parents, after, ts[1..]);
      var rest := AnnounceAll(parents, after, ts[1..]);
      DistinctConcat(first, rest);
      assert announced + Elements(first + rest) == after + Elements(rest);
      forall i | 0 <= i < |ts| ensures ts[i] == MAIN || ts[i] in announced + Elements(first + rest) {
        if i > 0 { assert ts[i] == ts[1..][i - 1]; }
      }
    }
  }

  /** A first announcement under full history goes on to the creator. */
  lemma AnnounceStep(parents: seq<nat>, announced: set<nat>, t: nat) returns (rest: seq<nat>)
    requires Registered(parents) && t < |parents| && t != MAIN && t !in announced && parents[t] != INVALID_TID
    ensures rest == Announce(parents, announced + {t}, parents[t], true)
    ensures Announce(parents, announced, t, true) == [t] + rest && Elements([t] + rest) == {t} + Elements(rest)
    ensures Tids(parents) - (announced + {t}) < Tids(parents) - announced
  {
    rest := Announce(parents, announced + {t}, parents[t], true);
    assert t in Tids(parents) - announced;
  }

  class Registry {
    const contexts: seq<Context>
    var report: seq<nat>

    ghost predicate Valid()
      reads this
    {
      && Registered(Parents())
      && (forall i, j :: 0 <= i < j < |contexts| ==> contexts[i] != contexts[j])
      && (forall i :: 0 <= i < |contexts| ==> contexts[i].tid == i)
    }

    ghost function Parents(): seq<nat> {
      seq(|contexts|, i requires 0 <= i < |contexts| => contexts[i].parent)
    }

    ghost function Announced(): set<nat>
      reads contexts
    {
      set t | 0 <= t < |contexts| && contexts[t].announced
    }

    /** Recursion ends on every creator graph, cyclic ones included. */
    method DescribeThread(t: nat, full: bool)
      requires Valid() && t < |contexts|
      modifies this, contexts
      ensures Valid()
      ensures var told := Announce(Parents(), old(Announced()), t, full);
        report == old(report) + told && Announced() == old(Announced()) + Elements(told)
      decreases Tids(Parents()) - Announced()
    {
      var context := contexts[t];
      ghost var parents := Parents();
      assert parents[t] == context.parent;
      if context.tid == MAIN || context.announced {
        assert Announce(parents, old(Announced()), t, full) == [] && Elements([]) == {} && report + [] == report;
        return;
      }
      context.announced := true;
      ghost var before := Announced();
      assert before == old(Announced()) + {t};
      report := report + [t];
      if context.parent == INVALID_TID || !full {
        assert Elements([t]) == {t};
        return;
      }
      ghost var rest := AnnounceStep(parents, old(Announced()), t);
      assert Parents() == parents;
      label inner:
      DescribeThread(context.parent, full);
      assert old@inner(Announced()) == before;
      assert report == old(report) + [t] + rest;
    }
  }
}
