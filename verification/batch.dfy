/** The shape every batch tool shares: one operation per id, each failure
    caught at the item, results kept in input order, two counts and a
    summary line. The fan-out under `Promise.all` is modelled as a
    sequential, order-preserving walk over the ids that threads the
    provider's state from one item to the next. */
module Batch {
  import opened Errors
  import Decimal

  /** One entry of `results`: `{id, success: true}` or `{id, success: false, error}`. */
  datatype ItemResult = ItemResult(id: string, success: bool, error: Option<string>)

  /** The error is present exactly when the item failed. */
  predicate WellFormed(r: ItemResult) {
    r.success <==> r.error.None?
  }

  /** The per-item `try`/`catch`: a throw becomes a failed entry whose error
      is the thrown `Error`'s message, or "Unknown error". */
  function Settle(id: string, a: Attempt): (r: ItemResult)
    ensures r.id == id && WellFormed(r)
    ensures r.success <==> a.Done?
    ensures a.Threw? && a.thrown.NonError? ==> r.error == Some("Unknown error")
    ensures a.Threw? && a.thrown.Raised? ==> r.error == Some(a.thrown.message)
    ensures a.Threw? ==> r.error == Some(MessageOr(a.thrown, "Unknown error"))
  {
    match a
    case Done => ItemResult(id, true, None)
    case Threw(t) => ItemResult(id, false, Some(MessageOr(t, "Unknown error")))
  }

  /** `Promise.all(ids.map(async id => { try … catch … }))`: one entry per id,
      in the order of `ids`, each settled on its own. */
  function Run<S>(s: S, ids: seq<string>, step: (S, string) -> (S, Attempt)): (out: (S, seq<ItemResult>))
    ensures |out.1| == |ids|
    ensures forall i :: 0 <= i < |ids| ==> out.1[i].id == ids[i] && WellFormed(out.1[i])
    decreases |ids|
  {
    if |ids| == 0 then (s, [])
    else
      var first := step(s, ids[0]);
      var rest := Run(first.0, ids[1..], step);
      (rest.0, [Settle(ids[0], first.1)] + rest.1)
  }

  /** `results.filter(r => r.success).length` */
  function SuccessCount(rs: seq<ItemResult>): nat
    decreases |rs|
  {
    if |rs| == 0 then 0 else (if rs[0].success then 1 else 0) + SuccessCount(rs[1..])
  }

  /** `results.filter(r => !r.success).length` */
  function FailedCount(rs: seq<ItemResult>): nat
    decreases |rs|
  {
    if |rs| == 0 then 0 else (if rs[0].success then 0 else 1) + FailedCount(rs[1..])
  }

  /** Every result is counted exactly once. */
  lemma {:induction false} CountsCover(rs: seq<ItemResult>)
    ensures SuccessCount(rs) + FailedCount(rs) == |rs|
    decreases |rs|
  {
    if |rs| > 0 {
      CountsCover(rs[1..]);
    }
  }

  /** Counting distributes over concatenation. */
  lemma {:induction false} SuccessCountAppend(a: seq<ItemResult>, b: seq<ItemResult>)
    ensures SuccessCount(a + b) == SuccessCount(a) + SuccessCount(b)
    decreases |a|
  {
    if |a| > 0 {
      assert (a + b)[1..] == a[1..] + b;
      SuccessCountAppend(a[1..], b);
    } else {
      assert a + b == b;
    }
  }

  /** The success count is the number of positions that succeeded. */
  lemma {:induction false} SuccessCountPositions(rs: seq<ItemResult>)
    ensures SuccessCount(rs) == |set i | 0 <= i < |rs| && rs[i].success|
    decreases |rs|
  {
    var all := set i | 0 <= i < |rs| && rs[i].success;
    if |rs| == 0 {
      assert all == {};
    } else {
      var n := |rs| - 1;
      var front := rs[..n];
      var before := set i | 0 <= i < n && front[i].success;
      SuccessCountPositions(front);
      assert rs == front + [rs[n]];
      SuccessCountAppend(front, [rs[n]]);
      if rs[n].success {
        assert all == before + {n};
      } else {
        assert all == before;
      }
    }
  }

  /** `${successCount} emails ${verb}, ${failedCount} failed` */
  function Summary(successes: nat, failures: nat, verb: string): string {
    Decimal.NatToString(successes) + " emails " + verb + ", " + Decimal.NatToString(failures) + " failed"
  }

  /** The payload of a batch tool: the summary line and the itemised results. */
  datatype Report = Report(message: string, results: seq<ItemResult>)

  function MakeReport(rs: seq<ItemResult>, verb: string): Report {
    Report(Summary(SuccessCount(rs), FailedCount(rs), verb), rs)
  }

  /** The longest prefix of digits. */
  function LeadingDigits(t: string): (d: string)
    ensures d <= t && Decimal.AllDigits(d)
    decreases |t|
  {
    if |t| > 0 && Decimal.IsDigit(t[0]) then [t[0]] + LeadingDigits(t[1..]) else ""
  }

  /** The longest suffix of digits. */
  function TrailingDigits(t: string): (d: string)
    ensures |d| <= |t| && d == t[|t| - |d|..] && Decimal.AllDigits(d)
    decreases |t|
  {
    if |t| > 0 && Decimal.IsDigit(t[|t| - 1]) then TrailingDigits(t[..|t| - 1]) + [t[|t| - 1]] else ""
  }

  /** The two digit strings of a summary line: before " emails", and before " failed". */
  function SummaryDigits(t: string): (r: Option<(string, string)>)
    ensures r.Some? ==> Decimal.AllDigits(r.value.0) && Decimal.AllDigits(r.value.1)
  {
    var lead := LeadingDigits(t);
    var tail := " failed";
    if |lead| == 0 || |t| < |tail| || t[|t| - |tail|..] != tail then None
    else
      var trail := TrailingDigits(t[..|t| - |tail|]);
      if |trail| == 0 then None else Some((lead, trail))
  }

  /** Reads both counts back out of a summary line. */
  function ParseSummary(t: string): Option<(nat, nat)> {
    match SummaryDigits(t)
    case None => None
    case Some((lead, trail)) => Some((Decimal.ParseNat(lead), Decimal.ParseNat(trail)))
  }

  lemma {:induction false} LeadingOf(d: string, rest: string)
    requires Decimal.AllDigits(d)
    requires |rest| > 0 && !Decimal.IsDigit(rest[0])
    ensures LeadingDigits(d + rest) == d
    decreases |d|
  {
    if |d| > 0 {
      assert (d + rest)[1..] == d[1..] + rest;
      LeadingOf(d[1..], rest);
    }
  }

  lemma {:induction false} TrailingOf(front: string, d: string)
    requires Decimal.AllDigits(d)
    requires |front| > 0 && !Decimal.IsDigit(front[|front| - 1])
    ensures TrailingDigits(front + d) == d
    decreases |d|
  {
    if |d| > 0 {
      assert (front + d)[..|front + d| - 1] == front + d[..|d| - 1];
      TrailingOf(front, d[..|d| - 1]);
    } else {
      assert front + d == front;
    }
  }

  /** Any two digit strings around the summary's words are read back. */
  lemma SummaryParsesDigits(s: string, f: string, verb: string)
    requires |s| > 0 && |f| > 0 && Decimal.AllDigits(s) && Decimal.AllDigits(f)
    ensures ParseSummary(s + " emails " + verb + ", " + f + " failed") == Some((Decimal.ParseNat(s), Decimal.ParseNat(f)))
  {
    var front := s + " emails " + verb + ", ";
    var rest := " emails " + verb + ", " + f + " failed";
    var t := front + f + " failed";
    SummarySplits(s, f, verb, front, rest);
    LeadingOf(s, rest);
    TrailingOf(front, f);
    ParsedAs(t, s, f);
  }

  /** Proof helper: where the digit strings sit in a summary line. */
  lemma SummarySplits(s: string, f: string, verb: string, front: string, rest: string)
    requires front == s + " emails " + verb + ", " && rest == " emails " + verb + ", " + f + " failed"
    ensures front + f + " failed" == s + rest
    ensures |rest| > 0 && rest[0] == ' '
    ensures |front| > 0 && front[|front| - 1] == ' '
    ensures |front + f + " failed"| >= 7
    ensures (front + f + " failed")[|front + f + " failed"| - 7..] == " failed"
    ensures (front + f + " failed")[..|front + f + " failed"| - 7] == front + f
  {
  }

  /** Proof helper: `ParseSummary`, once its two digit strings are known. */
  lemma ParsedAs(t: string, lead: string, trail: string)
    requires |lead| > 0 && LeadingDigits(t) == lead
    requires |t| >= 7 && t[|t| - 7..] == " failed"
    requires |trail| > 0 && TrailingDigits(t[..|t| - 7]) == trail
    ensures ParseSummary(t) == Some((Decimal.ParseNat(lead), Decimal.ParseNat(trail)))
  {
    assert SummaryDigits(t) == Some((lead, trail));
  }

  /** The summary line determines both counts, whatever the verb. */
  lemma SummaryRoundTrip(successes: nat, failures: nat, verb: string)
    ensures ParseSummary(Summary(successes, failures, verb)) == Some((successes, failures))
  {
    SummaryParsesDigits(Decimal.NatToString(successes), Decimal.NatToString(failures), verb);
    Decimal.ParseNatToString(successes);
    Decimal.ParseNatToString(failures);
  }

  /** A batch report's counts cover its results, and its message says so. */
  lemma ReportCounts(rs: seq<ItemResult>, verb: string)
    ensures var rep := MakeReport(rs, verb);
            ParseSummary(rep.message) == Some((SuccessCount(rs), FailedCount(rs)))
            && SuccessCount(rs) + FailedCount(rs) == |rep.results|
  {
    SummaryRoundTrip(SuccessCount(rs), FailedCount(rs), verb);
    CountsCover(rs);
  }

  /** Failure isolation: when every step, from any state that satisfies
      `inv`, keeps `inv` and completes as `expected` says for its id, each
      entry is exactly the settled `expected` outcome of its own id, no
      matter what the other items did. */
  lemma {:induction false} RunIsolated<S>(s: S, ids: seq<string>, step: (S, string) -> (S, Attempt),
                                           inv: S -> bool, expected: string -> Attempt)
    requires inv(s)
    requires forall t, id :: inv(t) ==> inv(step(t, id).0) && step(t, id).1 == expected(id)
    ensures forall i :: 0 <= i < |ids| ==> Run(s, ids, step).1[i] == Settle(ids[i], expected(ids[i]))
    decreases |ids|
  {
    if |ids| > 0 {
      RunIsolated(step(s, ids[0]).0, ids[1..], step, inv, expected);
      var out := Run(s, ids, step);
      forall i | 0 <= i < |ids| ensures out.1[i] == Settle(ids[i], expected(ids[i])) {
        if i > 0 {
          assert out.1[i] == Run(step(s, ids[0]).0, ids[1..], step).1[i - 1];
        }
      }
    }
  }

  /** Effects: when a step changes the view of its own id only, by an
      idempotent `effect`, the final view of every id listed (once or more)
      is its initial view with the effect applied once, and every other id
      is untouched. */
  lemma {:induction false} RunEffects<S, V>(s: S, ids: seq<string>, step: (S, string) -> (S, Attempt),
                                               view: (S, string) -> V, effect: (string, V) -> V)
    requires forall t, id, m :: view(step(t, id).0, m) == if m == id then effect(id, view(t, id)) else view(t, m)
    requires forall id, v :: effect(id, effect(id, v)) == effect(id, v)
    ensures forall m :: view(Run(s, ids, step).0, m) == if m in ids then effect(m, view(s, m)) else view(s, m)
    decreases |ids|
  {
    if |ids| > 0 {
      var s1 := step(s, ids[0]).0;
      RunEffects(s1, ids[1..], step, view, effect);
      forall m ensures view(Run(s, ids, step).0, m) == if m in ids then effect(m, view(s, m)) else view(s, m) {
        assert Run(s, ids, step).0 == Run(s1, ids[1..], step).0;
        assert m in ids <==> m == ids[0] || m in ids[1..];
        var v1 := view(s1, m);
        assert v1 == if m == ids[0] then effect(m, view(s, m)) else view(s, m);
        if m == ids[0] && m in ids[1..] {
          Idempotent(effect, m, view(s, m));
        }
      }
    }
  }

  /** What the items emit, concatenated in the order of `ids`. */
  function Concat<T>(ids: seq<string>, emits: string -> seq<T>): seq<T>
    decreases |ids|
  {
    if |ids| == 0 then [] else emits(ids[0]) + Concat(ids[1..], emits)
  }

  /** Traces: when every step, from any state that satisfies `inv`, keeps
      `inv` and extends the trace by what its id emits, the walk extends the
      trace by every id's emissions in the order of `ids`, repeats included:
      every item runs. */
  lemma {:induction false} RunTrace<S, T>(s: S, ids: seq<string>, step: (S, string) -> (S, Attempt),
                                           inv: S -> bool, trace: S -> seq<T>, emits: string -> seq<T>)
    requires inv(s)
    requires forall t, id :: inv(t) ==> inv(step(t, id).0) && trace(step(t, id).0) == trace(t) + emits(id)
    ensures trace(Run(s, ids, step).0) == trace(s) + Concat(ids, emits)
    decreases |ids|
  {
    if |ids| > 0 {
      var s1 := step(s, ids[0]).0;
      assert inv(s1) && trace(s1) == trace(s) + emits(ids[0]);
      RunTrace(s1, ids[1..], step, inv, trace, emits);
      var a, b, c := trace(s), emits(ids[0]), Concat(ids[1..], emits);
      assert Concat(ids, emits) == b + c;
      assert (a + b) + c == a + (b + c);
      assert Run(s, ids, step).0 == Run(s1, ids[1..], step).0;
    }
  }

  /** When each id emits one element, the concatenation lists them per id. */
  lemma {:induction false} ConcatSingles<T>(ids: seq<string>, emits: string -> seq<T>, f: string -> T)
    requires forall id :: emits(id) == [f(id)]
    ensures Concat(ids, emits) == seq(|ids|, i requires 0 <= i < |ids| => f(ids[i]))
    decreases |ids|
  {
    if |ids| > 0 {
      ConcatSingles(ids[1..], emits, f);
      assert Concat(ids, emits) == [f(ids[0])] + seq(|ids| - 1, i requires 0 <= i < |ids| - 1 => f(ids[1..][i]));
    }
  }

  /** One instance of the idempotence premise, kept apart so that the
      quantified premise is not instantiated inside `RunEffects`. */
  lemma Idempotent<V>(effect: (string, V) -> V, id: string, v: V)
    requires forall id, v :: effect(id, effect(id, v)) == effect(id, v)
    ensures effect(id, effect(id, v)) == effect(id, v)
  {
  }
}
