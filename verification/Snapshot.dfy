/**
 * Daily account snapshots: one forward scan over the account's events in time order, which moves a single
 * cursor from session close to session close and keeps running peaks. Folding events and computing
 * margin are one arbitrary function here.
 */
module Snapshot {
  import opened Options
  import opened Results

  /** A mark names a session date and an instant. */
  datatype Mark = Mark(date: int, at: int)
  datatype Event = Event(account: string, ts: int, order: int, mark: Option<Mark>, body: string)

  /** What folding the first events of an account and computing its margin can give. */
  datatype Measured = Refused | NoMarks | Account(equity: real, used: real)
  type Measure = seq<Event> -> Measured

  // --- order ---------------------------------------------------------------------------------

  predicate Before(a: Event, b: Event)
  {
    a.ts < b.ts || (a.ts == b.ts && a.order <= b.order)
  }

  function Insert(s: seq<Event>, e: Event): (r: seq<Event>)
    ensures |r| == |s| + 1 && multiset(r) == multiset(s) + multiset{e}
  {
    if s == [] || Before(s[|s| - 1], e) then s + [e]
    else
      assert s == s[..|s| - 1] + [s[|s| - 1]];
      Insert(s[..|s| - 1], e) + [s[|s| - 1]]
  }

  /** The account's events in time order, equal ones as they came. */
  function Ordered(events: seq<Event>, account: string): (r: seq<Event>)
  {
    if events == [] then []
    else
      var e := events[|events| - 1];
      var r := Ordered(events[..|events| - 1], account);
      if e.account == account then Insert(r, e) else r
  }

  predicate InTime(s: seq<Event>)
  {
    forall i, j :: 0 <= i < j < |s| ==> s[i].ts <= s[j].ts
  }

  /** By instant, and at one instant by sequence number. */
  predicate ByKey(s: seq<Event>)
  {
    forall i, j :: 0 <= i < j < |s| ==> Before(s[i], s[j])
  }

  lemma {:induction false} InsertByKey(s: seq<Event>, e: Event)
    requires ByKey(s)
    ensures ByKey(Insert(s, e))
    ensures forall x :: x in Insert(s, e) ==> x in s || x == e
  {
    if s != [] {
      var front, last := s[..|s| - 1], s[|s| - 1];
      if Before(last, e) {
        assert forall i :: 0 <= i < |s| ==> Before(s[i], e);
      } else {
        InsertByKey(front, e);
        var r := Insert(front, e);
        forall i | 0 <= i < |r|
          ensures Before(r[i], last)
        {
          assert r[i] in r;
        }
      }
    }
  }

  /** The order is the sort key's. */
  lemma {:induction false} OrderedByKey(events: seq<Event>, account: string)
    ensures ByKey(Ordered(events, account))
  {
    if events != [] {
      OrderedByKey(events[..|events| - 1], account);
      InsertByKey(Ordered(events[..|events| - 1], account), events[|events| - 1]);
    }
  }

  lemma OrderedInTime(events: seq<Event>, account: string)
    ensures InTime(Ordered(events, account))
  {
    OrderedByKey(events, account);
  }

  /** The account's own events, as they came. */
  function Own(events: seq<Event>, account: string): seq<Event>
  {
    if events == [] then []
    else
      var e := events[|events| - 1];
      Own(events[..|events| - 1], account) + if e.account == account then [e] else []
  }

  /** Ordering neither loses nor invents an event. */
  lemma {:induction false} OrderedIsPermutation(events: seq<Event>, account: string)
    ensures multiset(Ordered(events, account)) == multiset(Own(events, account))
  {
    if events != [] {
      OrderedIsPermutation(events[..|events| - 1], account);
    }
  }

  /** The events with one sort key, in the order they have. */
  function WithKey(s: seq<Event>, ts: int, order: int): seq<Event>
  {
    if s == [] then []
    else WithKey(s[..|s| - 1], ts, order) + if s[|s| - 1].ts == ts && s[|s| - 1].order == order then [s[|s| - 1]] else []
  }

  lemma WithKeyNext(s: seq<Event>, e: Event, ts: int, order: int)
    ensures WithKey(s + [e], ts, order) == WithKey(s, ts, order) + if e.ts == ts && e.order == order then [e] else []
  {
    assert (s + [e])[..|s|] == s;
  }

  /** An inserted event comes after those of its key. */
  lemma {:induction false} InsertIsStable(s: seq<Event>, e: Event, ts: int, order: int)
    ensures WithKey(Insert(s, e), ts, order) == WithKey(s + [e], ts, order)
  {
    WithKeyNext(s, e, ts, order);
    if s != [] && !Before(s[|s| - 1], e) {
      var front, last := s[..|s| - 1], s[|s| - 1];
      InsertIsStable(front, e, ts, order);
      WithKeyNext(front, e, ts, order);
      WithKeyNext(Insert(front, e), last, ts, order);
    }
  }

  /** And it is stable: the events of each sort key are in the order they came. */
  lemma {:induction false} OrderedIsStable(events: seq<Event>, account: string, ts: int, order: int)
    ensures WithKey(Ordered(events, account), ts, order) == WithKey(Own(events, account), ts, order)
  {
    if events != [] {
      var front, e := events[..|events| - 1], events[|events| - 1];
      OrderedIsStable(front, account, ts, order);
      if e.account == account {
        InsertIsStable(Ordered(front, account), e, ts, order);
        WithKeyNext(Ordered(front, account), e, ts, order);
        WithKeyNext(Own(front, account), e, ts, order);
      } else {
        assert Own(events, account) == Own(front, account);
      }
    }
  }

  // --- sessions ---------------------------------------------------------------------------------

  predicate Marks(e: Event, account: string, date: int)
  {
    e.account == account && e.mark.Some? && e.mark.value.date == date
  }

  predicate Rising(s: seq<int>)
  {
    forall i, j :: 0 <= i < j < |s| ==> s[i] < s[j]
  }

  function InsertDate(s: seq<int>, d: int): (r: seq<int>)
    requires Rising(s)
    ensures Rising(r) && forall x :: x in r <==> x in s || x == d
  {
    if s == [] || s[|s| - 1] < d then s + [d]
    else if s[|s| - 1] == d then s
    else
      assert s == s[..|s| - 1] + [s[|s| - 1]];
      var t := InsertDate(s[..|s| - 1], d);
      assert forall i :: 0 <= i < |t| ==> t[i] in t;
      t + [s[|s| - 1]]
  }

  /** The session dates: every date some mark of the account names, once, in order. */
  function Closes(events: seq<Event>, account: string): (r: seq<int>)
    ensures Rising(r)
    ensures forall d :: d in r <==> exists i :: 0 <= i < |events| && Marks(events[i], account, d)
  {
    if events == [] then []
    else
      var e := events[|events| - 1];
      var r := Closes(events[..|events| - 1], account);
      if e.account == account && e.mark.Some? then InsertDate(r, e.mark.value.date) else r
  }

  /** The latest instant among a session's marks. */
  function Stamp(events: seq<Event>, account: string, date: int): (r: Option<int>)
    ensures r.None? <==> forall i :: 0 <= i < |events| ==> !Marks(events[i], account, date)
    ensures r.Some? ==> forall i :: 0 <= i < |events| && Marks(events[i], account, date) ==> events[i].mark.value.at <= r.value
    ensures r.Some? ==> exists i :: 0 <= i < |events| && Marks(events[i], account, date) && events[i].mark.value.at == r.value
  {
    if events == [] then None
    else
      var e := events[|events| - 1];
      var r := Stamp(events[..|events| - 1], account, date);
      if Marks(e, account, date) && (r.None? || e.mark.value.at > r.value) then Some(e.mark.value.at) else r
  }

  // --- the cursor ------------------------------------------------------------------------------

  /** How many of the time-ordered events are stamped at or before `t`. */
  function CountLe(s: seq<Event>, t: int): (n: nat)
    ensures n <= |s|
  {
    if s == [] then 0 else CountLe(s[..|s| - 1], t) + if s[|s| - 1].ts <= t then 1 else 0
  }

  function UpTo(s: seq<Event>, t: int): seq<Event>
  {
    if s == [] then []
    else UpTo(s[..|s| - 1], t) + if s[|s| - 1].ts <= t then [s[|s| - 1]] else []
  }

  /** In time order the events at or before `t` are the first ones. */
  lemma {:induction false} UpToIsPrefix(s: seq<Event>, t: int)
    requires InTime(s)
    ensures UpTo(s, t) == s[..CountLe(s, t)]
    ensures forall i :: 0 <= i < |s| ==> (i < CountLe(s, t) <==> s[i].ts <= t)
  {
    CountIsCut(s, t);
    if s != [] {
      var front, last := s[..|s| - 1], s[|s| - 1];
      UpToIsPrefix(front, t);
      if last.ts <= t {
        assert |s| - 1 < CountLe(s, t);
        assert front[..|front|] == front && front + [last] == s;
      } else {
        assert s[..CountLe(front, t)] == front[..CountLe(front, t)];
      }
    }
  }

  /** In time order the events counted are the first ones. */
  lemma {:induction false} CountIsCut(s: seq<Event>, t: int)
    requires InTime(s)
    ensures forall i :: 0 <= i < |s| ==> (i < CountLe(s, t) <==> s[i].ts <= t)
  {
    if s != [] {
      var front, n := s[..|s| - 1], |s| - 2;
      CountIsCut(front, t);
      if s[|s| - 1].ts <= t && n >= 0 {
        assert front[n] == s[n] && n < CountLe(front, t);
      }
    }
  }

  /** The cursor moves on from where it is. */
  function Advance(s: seq<Event>, upto: nat, t: int): (n: nat)
    requires upto <= |s|
    ensures upto <= n <= |s|
    decreases |s| - upto
  {
    if upto < |s| && s[upto].ts <= t then Advance(s, upto + 1, t) else upto
  }

  lemma {:induction false} AdvanceIs(s: seq<Event>, upto: nat, t: int)
    requires InTime(s) && upto <= |s|
    ensures Advance(s, upto, t) == if CountLe(s, t) < upto then upto else CountLe(s, t)
    decreases |s| - upto
  {
    UpToIsPrefix(s, t);
    if upto < |s| && s[upto].ts <= t {
      AdvanceIs(s, upto + 1, t);
    }
  }

  /** The latest close stamp among the first `k + 1` sessions. */
  function Latest(stamps: seq<int>, k: nat): (t: int)
    requires k < |stamps|
    ensures forall i :: 0 <= i <= k ==> stamps[i] <= t
    ensures t in stamps[..k + 1]
  {
    if k == 0 then stamps[0]
    else if Latest(stamps, k - 1) < stamps[k] then stamps[k] else Latest(stamps, k - 1)
  }

  /** Where the cursor stands after `k` sessions. */
  function Cursor(s: seq<Event>, stamps: seq<int>, k: nat): (n: nat)
    requires k <= |stamps|
    ensures n <= |s|
  {
    if k == 0 then 0 else Advance(s, Cursor(s, stamps, k - 1), stamps[k - 1])
  }

  lemma CountMono(s: seq<Event>, t: int, u: int)
    requires InTime(s) && t <= u
    ensures CountLe(s, t) <= CountLe(s, u)
  {
    UpToIsPrefix(s, t);
    UpToIsPrefix(s, u);
  }

  /** The cursor after a session counts the events up to the latest close seen so far. */
  lemma {:induction false} CursorIs(s: seq<Event>, stamps: seq<int>, k: nat)
    requires InTime(s) && k < |stamps|
    ensures Cursor(s, stamps, k + 1) == CountLe(s, Latest(stamps, k))
  {
    AdvanceIs(s, Cursor(s, stamps, k), stamps[k]);
    if k > 0 {
      CursorIs(s, stamps, k - 1);
      if Latest(stamps, k - 1) < stamps[k] {
        CountMono(s, Latest(stamps, k - 1), stamps[k]);
      } else {
        CountMono(s, stamps[k], Latest(stamps, k - 1));
      }
    }
  }

  /** The cursor's prefix is the events up to `stamps[k]` just when none lies between that stamp and the latest. */
  lemma PrefixOwnIff(s: seq<Event>, stamps: seq<int>, k: nat)
    requires InTime(s) && k < |stamps|
    ensures s[..Cursor(s, stamps, k + 1)] == UpTo(s, stamps[k]) <==>
      forall i :: 0 <= i < |s| ==> !(stamps[k] < s[i].ts <= Latest(stamps, k))
  {
    CursorIs(s, stamps, k);
    UpToIsPrefix(s, stamps[k]);
    UpToIsPrefix(s, Latest(stamps, k));
    CountMono(s, stamps[k], Latest(stamps, k));
    var n, m := CountLe(s, stamps[k]), CountLe(s, Latest(stamps, k));
    if n < m {
      assert stamps[k] < s[n].ts <= Latest(stamps, k);
      assert |s[..m]| != |s[..n]|;
    }
  }

  // --- running peaks --------------------------------------------------------------------------------

  /** A measured session; `index` counts the sessions that had no marks to measure, too. */
  datatype Point = Point(session: int, index: nat, equity: real, used: real)

  datatype AccountSnapshot = AccountSnapshot(
    session: int, equity: real, used: real, marginPeak: real, drawdown: real, duration: int)

  /** What the scan carries from session to session. */
  datatype Peaks = Peaks(margin: Option<real>, equity: Option<real>, start: Option<nat>)

  function Bump(peak: Option<real>, x: real): Option<real>
  {
    if peak.None? || x > peak.value then Some(x) else peak
  }

  function Below(peak: Option<real>, x: real): real
  {
    if peak.Some? && peak.value > 0.0 && peak.value > x then peak.value - x else 0.0
  }

  function Next(p: Peaks, x: Point): Peaks
  {
    var isPeak := p.equity.None? || x.equity > p.equity.value;
    var peak := Bump(p.equity, x.equity);
    var start := if isPeak then None else p.start;
    Peaks(Bump(p.margin, x.used), peak, if Below(peak, x.equity) > 0.0 && start.None? then Some(x.index) else start)
  }

  function Emit(p: Peaks, x: Point): AccountSnapshot
  {
    AccountSnapshot(x.session, x.equity, x.used, if p.margin.Some? then p.margin.value else 0.0, Below(p.equity, x.equity),
                    if p.start.Some? then x.index - p.start.value else 0)
  }

  /** The peaks after a history of points. */
  function After(ps: seq<Point>): Peaks
  {
    if ps == [] then Peaks(None, None, None) else Next(After(ps[..|ps| - 1]), ps[|ps| - 1])
  }

  function Series(ps: seq<Point>): (r: seq<AccountSnapshot>)
    ensures |r| == |ps|
  {
    if ps == [] then [] else Series(ps[..|ps| - 1]) + [Emit(After(ps), ps[|ps| - 1])]
  }

  lemma {:induction false} SeriesAt(ps: seq<Point>, i: nat)
    requires i < |ps|
    ensures Series(ps)[i] == Emit(After(ps[..i + 1]), ps[i])
  {
    if i == |ps| - 1 {
      assert ps[..i + 1] == ps;
    } else {
      SeriesAt(ps[..|ps| - 1], i);
      assert ps[..|ps| - 1][..i + 1] == ps[..i + 1];
    }
  }

  // --- what the peaks are -----------------------------------------------------------------------------

  /** `x` is the greatest of the equities up to `n`. */
  ghost predicate TopEquity(ps: seq<Point>, n: nat, x: real)
    requires n <= |ps|
  {
    && (forall i :: 0 <= i < n ==> ps[i].equity <= x)
    && exists i :: 0 <= i < n && ps[i].equity == x
  }

  ghost predicate TopUsed(ps: seq<Point>, n: nat, x: real)
    requires n <= |ps|
  {
    && (forall i :: 0 <= i < n ==> ps[i].used <= x)
    && exists i :: 0 <= i < n && ps[i].used == x
  }

  lemma {:induction false} PeaksAre(ps: seq<Point>, n: nat)
    requires 0 < n <= |ps|
    ensures After(ps[..n]).equity.Some? && TopEquity(ps, n, After(ps[..n]).equity.value)
    ensures After(ps[..n]).margin.Some? && TopUsed(ps, n, After(ps[..n]).margin.value)
  {
    assert ps[..n][..n - 1] == ps[..n - 1];
    assert ps[..n][n - 1] == ps[n - 1];
    if n > 1 {
      PeaksAre(ps, n - 1);
    }
  }

  /** Every snapshot's margin peak is the greatest margin used so far. */
  lemma MarginPeakIsPrefixMax(ps: seq<Point>, i: nat)
    requires i < |ps|
    ensures TopUsed(ps, i + 1, Series(ps)[i].marginPeak)
  {
    SeriesAt(ps, i);
    PeaksAre(ps, i + 1);
  }

  /** A drop from a positive equity. */
  ghost predicate Drop(ps: seq<Point>, j: nat, i: nat, d: real)
    requires j <= i < |ps|
  {
    ps[j].equity > 0.0 && d == ps[j].equity - ps[i].equity
  }

  /** A snapshot's drawdown is the largest drop to it from any positive equity so far, or zero. */
  lemma DrawdownIsLargestDrop(ps: seq<Point>, i: nat)
    requires i < |ps|
    ensures Series(ps)[i].drawdown >= 0.0
    ensures forall j :: 0 <= j <= i && ps[j].equity > 0.0 ==> ps[j].equity - ps[i].equity <= Series(ps)[i].drawdown
    ensures Series(ps)[i].drawdown > 0.0 ==> exists j :: 0 <= j <= i && Drop(ps, j, i, Series(ps)[i].drawdown)
  {
    SeriesAt(ps, i);
    PeaksAre(ps, i + 1);
    var peak := After(ps[..i + 1]).equity.value;
    var j :| 0 <= j < i + 1 && ps[j].equity == peak;
    assert Series(ps)[i].drawdown > 0.0 ==> Drop(ps, j, i, Series(ps)[i].drawdown);
  }

  // --- summaries --------------------------------------------------------------------------------------

  function MaxOf(xs: seq<real>): (m: real)
    requires xs != []
    ensures m in xs && forall i :: 0 <= i < |xs| ==> xs[i] <= m
  {
    var last := xs[|xs| - 1];
    if |xs| == 1 then last
    else
      var m := MaxOf(xs[..|xs| - 1]);
      assert xs == xs[..|xs| - 1] + [last];
      if last >= m then last else m
  }

  function Drawdowns(ss: seq<AccountSnapshot>): (r: seq<real>)
    ensures |r| == |ss| && forall i :: 0 <= i < |ss| ==> r[i] == ss[i].drawdown
  {
    seq(|ss|, i requires 0 <= i < |ss| => ss[i].drawdown)
  }

  function MaxDrawdown(ss: seq<AccountSnapshot>): (r: Result<real>)
  {
    if ss == [] then Err else Ok(MaxOf(Drawdowns(ss)))
  }

  function Useds(ss: seq<AccountSnapshot>): (r: seq<real>)
    ensures |r| == |ss| && forall i :: 0 <= i < |ss| ==> r[i] == ss[i].used
  {
    seq(|ss|, i requires 0 <= i < |ss| => ss[i].used)
  }

  function PeakMargin(ss: seq<AccountSnapshot>): (r: Result<real>)
  {
    if ss == [] then Err else Ok(MaxOf(Useds(ss)))
  }

  lemma SeriesMaxDrawdown(ps: seq<Point>)
    requires ps != []
    ensures MaxDrawdown(Series(ps)).Ok? && MaxDrawdown(Series(ps)).value >= 0.0
    ensures forall i, j :: 0 <= j <= i < |ps| && ps[j].equity > 0.0 ==>
      ps[j].equity - ps[i].equity <= MaxDrawdown(Series(ps)).value
    ensures MaxDrawdown(Series(ps)).value > 0.0 ==>
      exists i, j :: 0 <= j <= i < |ps| && Drop(ps, j, i, MaxDrawdown(Series(ps)).value)
  {
    var ds := Drawdowns(Series(ps));
    var m := MaxOf(ds);
    forall i, j | 0 <= j <= i < |ps| && ps[j].equity > 0.0
      ensures ps[j].equity - ps[i].equity <= m
    {
      DrawdownIsLargestDrop(ps, i);
    }
    var i :| 0 <= i < |ds| && ds[i] == m;
    DrawdownIsLargestDrop(ps, i);
  }

  lemma SeriesPeakMargin(ps: seq<Point>)
    requires ps != []
    ensures PeakMargin(Series(ps)) == Ok(Series(ps)[|ps| - 1].marginPeak)
  {
    MarginPeakIsPrefixMax(ps, |ps| - 1);
    var used, peak := Useds(Series(ps)), Series(ps)[|ps| - 1].marginPeak;
    forall i | 0 <= i < |ps|
      ensures used[i] == ps[i].used
    {
      SeriesAt(ps, i);
    }
    MaxIs(used, peak);
  }

  lemma MaxIs(xs: seq<real>, m: real)
    requires xs != [] && (forall i :: 0 <= i < |xs| ==> xs[i] <= m) && exists i :: 0 <= i < |xs| && xs[i] == m
    ensures MaxOf(xs) == m
  {
  }

  // --- how long the drawdown has lasted -------------------------------------------------------------------

  /** Higher than everything before it. */
  predicate StrictPeak(ps: seq<Point>, j: nat)
    requires j < |ps|
  {
    forall i :: 0 <= i < j ==> ps[i].equity < ps[j].equity
  }

  /** Below some positive equity before it. */
  predicate Underwater(ps: seq<Point>, j: nat)
    requires j < |ps|
  {
    exists i :: 0 <= i < j && ps[i].equity > 0.0 && ps[i].equity > ps[j].equity
  }

  /** The last strict peak before `n`; the first point is one. */
  function LastPeak(ps: seq<Point>, n: nat): (p: nat)
    requires 0 < n <= |ps|
    ensures p < n && StrictPeak(ps, p) && forall j :: p < j < n ==> !StrictPeak(ps, j)
  {
    if StrictPeak(ps, n - 1) then n - 1 else LastPeak(ps, n - 1)
  }

  /** `s` is the first underwater point after the peak at `p`, up to `n`. */
  ghost predicate FirstUnder(ps: seq<Point>, p: nat, n: nat, s: nat)
    requires n <= |ps|
  {
    p < s < n && Underwater(ps, s) && forall j :: p < j < s ==> !Underwater(ps, j)
  }

  ghost predicate StartIs(ps: seq<Point>, n: nat, start: Option<nat>)
    requires 0 < n <= |ps|
  {
    var p := LastPeak(ps, n);
    match start
    case None => forall j :: p < j < n ==> !Underwater(ps, j)
    case Some(x) => exists s: nat :: s < n && FirstUnder(ps, p, n, s) && ps[s].index == x
  }

  /** The two tests of the scan, against the peak so far. */
  lemma TestsMean(ps: seq<Point>, n: nat, peak: real)
    requires 0 < n < |ps| && TopEquity(ps, n, peak)
    ensures ps[n].equity > peak <==> StrictPeak(ps, n)
    ensures Below(Bump(Some(peak), ps[n].equity), ps[n].equity) > 0.0 <==> Underwater(ps, n)
  {
    var i :| 0 <= i < n && ps[i].equity == peak;
  }

  lemma {:induction false} StartCorrect(ps: seq<Point>, n: nat)
    requires 0 < n <= |ps|
    ensures StartIs(ps, n, After(ps[..n]).start)
  {
    assert ps[..n][..n - 1] == ps[..n - 1] && ps[..n][n - 1] == ps[n - 1];
    if n > 1 {
      StartCorrect(ps, n - 1);
      PeaksAre(ps, n - 1);
      var before := After(ps[..n - 1]);
      TestsMean(ps, n - 1, before.equity.value);
      StartStep(ps, n - 1, before.start, After(ps[..n]).start);
    }
  }

  lemma StartStep(ps: seq<Point>, n: nat, before: Option<nat>, after: Option<nat>)
    requires 0 < n < |ps| && StartIs(ps, n, before)
    requires after == (var kept := if StrictPeak(ps, n) then None else before;
                       if Underwater(ps, n) && kept.None? then Some(ps[n].index) else kept)
    ensures StartIs(ps, n + 1, after)
  {
    if StrictPeak(ps, n) {
      assert !Underwater(ps, n);
    } else if before.Some? {
      var s: nat :| s < n && FirstUnder(ps, LastPeak(ps, n), n, s) && ps[s].index == before.value;
      assert FirstUnder(ps, LastPeak(ps, n + 1), n + 1, s);
    } else if Underwater(ps, n) {
      assert FirstUnder(ps, LastPeak(ps, n + 1), n + 1, n);
    }
  }

  /** Duration counts sessions from the first underwater one after the last strict peak, and is zero without one. */
  lemma DurationIs(ps: seq<Point>, n: nat)
    requires 0 < n <= |ps|
    ensures forall s: nat :: FirstUnder(ps, LastPeak(ps, n), n, s) ==> Series(ps)[n - 1].duration == ps[n - 1].index - ps[s].index
    ensures (forall s: nat :: !FirstUnder(ps, LastPeak(ps, n), n, s)) ==> Series(ps)[n - 1].duration == 0
  {
    SeriesAt(ps, n - 1);
    StartCorrect(ps, n);
    var p, start := LastPeak(ps, n), After(ps[..n]).start;
    forall s: nat | FirstUnder(ps, p, n, s)
      ensures start == Some(ps[s].index)
    {
      if start.Some? {
        var t: nat :| t < n && FirstUnder(ps, p, n, t) && ps[t].index == start.value;
        assert s == t;
      }
    }
  }

  // --- the whole scan ------------------------------------------------------------------------------------------

  /** The close stamps of the sessions, in session order. */
  function Stamps(events: seq<Event>, account: string, closes: seq<int>): (r: seq<int>)
    requires forall d :: d in closes ==> Stamp(events, account, d).Some?
    ensures |r| == |closes| && forall k :: 0 <= k < |closes| ==> r[k] == Stamp(events, account, closes[k]).value
  {
    seq(|closes|, k requires 0 <= k < |closes| => Stamp(events, account, closes[k]).value)
  }

  /** The points of the first `k` sessions; a session without marks in its state is passed over. */
  function Points(ordered: seq<Event>, closes: seq<int>, stamps: seq<int>, measure: Measure, k: nat): (r: Result<seq<Point>>)
    requires k <= |closes| == |stamps|
  {
    if k == 0 then Ok([])
    else
      var before := Points(ordered, closes, stamps, measure, k - 1);
      if before.Err? then Err
      else match measure(ordered[..Cursor(ordered, stamps, k)])
        case Refused => Err
        case NoMarks => before
        case Account(equity, used) => Ok(before.value + [Point(closes[k - 1], k - 1, equity, used)])
  }

  lemma {:induction false} RefusedStays(ordered: seq<Event>, closes: seq<int>, stamps: seq<int>, measure: Measure, k: nat, n: nat)
    requires k <= n <= |closes| == |stamps| && Points(ordered, closes, stamps, measure, k).Err?
    ensures Points(ordered, closes, stamps, measure, n).Err?
  {
    if k < n {
      RefusedStays(ordered, closes, stamps, measure, k, n - 1);
    }
  }

  function DailySpec(events: seq<Event>, account: string, measure: Measure): (r: Result<seq<AccountSnapshot>>)
  {
    var closes := Closes(events, account);
    StampsExist(events, account);
    ScanSpec(Ordered(events, account), closes, Stamps(events, account, closes), measure)
  }

  lemma StampsExist(events: seq<Event>, account: string)
    ensures forall d :: d in Closes(events, account) ==> Stamp(events, account, d).Some?
  {
  }

  /** The close stamp of one session: one pass over all events. */
  method CloseStamp(events: seq<Event>, account: string, date: int) returns (r: Option<int>)
    ensures r == Stamp(events, account, date)
  {
    r := None;
    var i := 0;
    while i < |events|
      invariant 0 <= i <= |events| && r == Stamp(events[..i], account, date)
    {
      assert events[..i + 1][..i] == events[..i];
      var e := events[i];
      if Marks(e, account, date) && (r.None? || e.mark.value.at > r.value) {
        r := Some(e.mark.value.at);
      }
      i := i + 1;
    }
    assert events[..i] == events;
  }

  function ScanSpec(ordered: seq<Event>, closes: seq<int>, stamps: seq<int>, measure: Measure): Result<seq<AccountSnapshot>>
    requires |closes| == |stamps|
  {
    var points := Points(ordered, closes, stamps, measure, |closes|);
    if points.Err? then Err else Ok(Series(points.value))
  }

  /** The points so far, with the running values that go with them. */
  ghost predicate Scanned(ordered: seq<Event>, closes: seq<int>, stamps: seq<int>, measure: Measure, k: nat,
                          points: seq<Point>, peaks: Peaks, snapshots: seq<AccountSnapshot>)
    requires k <= |closes| == |stamps|
  {
    Points(ordered, closes, stamps, measure, k) == Ok(points) && peaks == After(points) && snapshots == Series(points)
  }

  lemma ScanStep(ordered: seq<Event>, closes: seq<int>, stamps: seq<int>, measure: Measure, k: nat,
                 points: seq<Point>, peaks: Peaks, snapshots: seq<AccountSnapshot>)
    requires k < |closes| == |stamps| && Scanned(ordered, closes, stamps, measure, k, points, peaks, snapshots)
    ensures match measure(ordered[..Cursor(ordered, stamps, k + 1)])
      case Refused => ScanSpec(ordered, closes, stamps, measure) == Err
      case NoMarks => Scanned(ordered, closes, stamps, measure, k + 1, points, peaks, snapshots)
      case Account(equity, used) =>
        var x := Point(closes[k], k, equity, used);
        Scanned(ordered, closes, stamps, measure, k + 1, points + [x], Next(peaks, x), snapshots + [Emit(Next(peaks, x), x)])
  {
    match measure(ordered[..Cursor(ordered, stamps, k + 1)])
    case Refused => RefusedStays(ordered, closes, stamps, measure, k + 1, |closes|);
    case NoMarks =>
    case Account(equity, used) => assert (points + [Point(closes[k], k, equity, used)])[..|points|] == points;
  }

  /** The scan: one cursor, three running values, one snapshot per measured session. */
  method DailySnapshots(events: seq<Event>, account: string, measure: Measure) returns (r: Result<seq<AccountSnapshot>>)
    ensures r == DailySpec(events, account, measure)
  {
    var closes := Closes(events, account);
    StampsExist(events, account);
    r := Scan(events, account, Ordered(events, account), closes, measure);
  }

  method Scan(events: seq<Event>, account: string, ordered: seq<Event>, closes: seq<int>, measure: Measure)
    returns (r: Result<seq<AccountSnapshot>>)
    requires forall d :: d in closes ==> Stamp(events, account, d).Some?
    ensures r == ScanSpec(ordered, closes, Stamps(events, account, closes), measure)
  {
    ghost var stamps := Stamps(events, account, closes);
    ghost var points: seq<Point> := [];
    var snapshots: seq<AccountSnapshot> := [];
    var peaks := Peaks(None, None, None);
    var upto, k := 0, 0;
    while k < |closes|
      invariant 0 <= k <= |closes| && upto == Cursor(ordered, stamps, k)
      invariant Scanned(ordered, closes, stamps, measure, k, points, peaks, snapshots)
    {
      var stamp := CloseStamp(events, account, closes[k]);
      upto := Forward(ordered, upto, stamp.value);
      var measured := measure(ordered[..upto]);
      ScanStep(ordered, closes, stamps, measure, k, points, peaks, snapshots);
      match measured {
        case Refused =>
          return Err;
        case NoMarks =>
        case Account(equity, used) =>
          var x := Point(closes[k], k, equity, used);
          peaks := Next(peaks, x);
          snapshots := snapshots + [Emit(peaks, x)];
          points := points + [x];
      }
      k := k + 1;
    }
    r := Ok(snapshots);
  }

  method Forward(ordered: seq<Event>, start: nat, stamp: int) returns (upto: nat)
    requires start <= |ordered|
    ensures upto == Advance(ordered, start, stamp)
  {
    upto := start;
    while upto < |ordered| && ordered[upto].ts <= stamp
      invariant start <= upto <= |ordered| && Advance(ordered, start, stamp) == Advance(ordered, upto, stamp)
      decreases |ordered| - upto
    {
      upto := upto + 1;
    }
  }

  // --- what each snapshot is of ---------------------------------------------------------------------------

  /** The close stamps of an account's sessions. */
  function SessionStamps(events: seq<Event>, account: string): (r: seq<int>)
    ensures |r| == |Closes(events, account)|
  {
    StampsExist(events, account);
    Stamps(events, account, Closes(events, account))
  }

  /** The events the scan folds at its `k`-th session. */
  function SessionEvents(events: seq<Event>, account: string, k: nat): seq<Event>
    requires k < |Closes(events, account)|
  {
    var s := Ordered(events, account);
    s[..Cursor(s, SessionStamps(events, account), k + 1)]
  }

  lemma {:induction false} OwnIn(events: seq<Event>, account: string, e: Event)
    ensures e in Own(events, account) <==> e in events && e.account == account
  {
    if events != [] {
      OwnIn(events[..|events| - 1], account, e);
      assert events == events[..|events| - 1] + [events[|events| - 1]];
    }
  }

  lemma OrderedIn(events: seq<Event>, account: string, e: Event)
    ensures e in Ordered(events, account) <==> e in events && e.account == account
  {
    OrderedIsPermutation(events, account);
    OwnIn(events, account, e);
    assert e in multiset(Ordered(events, account)) <==> e in multiset(Own(events, account));
  }

  /** An event of the account past the session's close that the scan folds all the same. */
  ghost predicate Early(events: seq<Event>, account: string, k: nat, e: Event)
    requires k < |Closes(events, account)|
  {
    var stamps := SessionStamps(events, account);
    e in events && e.account == account && stamps[k] < e.ts <= Latest(stamps, k)
  }

  /**
   * A session is measured on exactly the account's events stamped at or before its close, just when no
   * event lies between its close and a later close stamp of an earlier session.
   */
  lemma OwnEventsIff(events: seq<Event>, account: string, k: nat)
    requires k < |Closes(events, account)|
    ensures SessionEvents(events, account, k) == UpTo(Ordered(events, account), SessionStamps(events, account)[k])
      <==> forall e :: !Early(events, account, k, e)
  {
    var s, stamps := Ordered(events, account), SessionStamps(events, account);
    OrderedInTime(events, account);
    PrefixOwnIff(s, stamps, k);
    forall e
      ensures e in s <==> e in events && e.account == account
    {
      OrderedIn(events, account, e);
    }
    if i :| 0 <= i < |s| && stamps[k] < s[i].ts <= Latest(stamps, k) {
      assert s[i] in s && Early(events, account, k, s[i]);
    }
  }

  /** When close stamps rise with the session dates, every session is measured on exactly its own events. */
  lemma RisingStampsOwn(events: seq<Event>, account: string, k: nat)
    requires k < |Closes(events, account)| && Rising(SessionStamps(events, account))
    ensures SessionEvents(events, account, k) == UpTo(Ordered(events, account), SessionStamps(events, account)[k])
  {
    OwnEventsIff(events, account, k);
  }

  /** The measure of the `j`-th session in the scan. */
  function MeasuredAt(ordered: seq<Event>, stamps: seq<int>, measure: Measure, j: nat): Measured
    requires j < |stamps|
  {
    measure(ordered[..Cursor(ordered, stamps, j + 1)])
  }

  predicate PointOf(ordered: seq<Event>, closes: seq<int>, stamps: seq<int>, measure: Measure, x: Point)
    requires |closes| == |stamps|
  {
    && x.index < |closes| && x.session == closes[x.index]
    && MeasuredAt(ordered, stamps, measure, x.index) == Account(x.equity, x.used)
  }

  /** One refusal refuses all. */
  lemma {:induction false} PointsRefused(ordered: seq<Event>, closes: seq<int>, stamps: seq<int>, measure: Measure, k: nat)
    requires k <= |closes| == |stamps|
    ensures Points(ordered, closes, stamps, measure, k).Err?
      <==> exists j :: 0 <= j < k && MeasuredAt(ordered, stamps, measure, j).Refused?
  {
    if k > 0 {
      PointsRefused(ordered, closes, stamps, measure, k - 1);
      assert MeasuredAt(ordered, stamps, measure, k - 1) == measure(ordered[..Cursor(ordered, stamps, k)]);
    }
  }

  /** The points are measured sessions, in order. */
  lemma {:induction false} PointsAre(ordered: seq<Event>, closes: seq<int>, stamps: seq<int>, measure: Measure, k: nat)
    requires k <= |closes| == |stamps| && Points(ordered, closes, stamps, measure, k).Ok?
    ensures var ps := Points(ordered, closes, stamps, measure, k).value;
      && (forall i :: 0 <= i < |ps| ==> PointOf(ordered, closes, stamps, measure, ps[i]) && ps[i].index < k)
      && (forall i, j :: 0 <= i < j < |ps| ==> ps[i].index < ps[j].index)
  {
    if k > 0 {
      PointsAre(ordered, closes, stamps, measure, k - 1);
      assert MeasuredAt(ordered, stamps, measure, k - 1) == measure(ordered[..Cursor(ordered, stamps, k)]);
    }
  }

  /** No measured session is passed over. */
  lemma {:induction false} PointsReach(ordered: seq<Event>, closes: seq<int>, stamps: seq<int>, measure: Measure, k: nat, j: nat)
    returns (i: nat)
    requires j < k <= |closes| == |stamps| && Points(ordered, closes, stamps, measure, k).Ok?
    requires MeasuredAt(ordered, stamps, measure, j).Account?
    ensures var ps := Points(ordered, closes, stamps, measure, k).value; i < |ps| && ps[i].index == j
  {
    if j < k - 1 {
      i := PointsReach(ordered, closes, stamps, measure, k - 1, j);
    } else {
      i := |Points(ordered, closes, stamps, measure, k - 1).value|;
    }
  }

  /** The list is refused exactly when some session's events cannot be folded or measured. */
  lemma RefusedIff(events: seq<Event>, account: string, measure: Measure)
    ensures DailySpec(events, account, measure).Err?
      <==> exists k :: 0 <= k < |Closes(events, account)| && measure(SessionEvents(events, account, k)).Refused?
  {
    var s, closes, stamps := Ordered(events, account), Closes(events, account), SessionStamps(events, account);
    PointsRefused(s, closes, stamps, measure, |closes|);
    forall k | 0 <= k < |closes|
      ensures MeasuredAt(s, stamps, measure, k) == measure(SessionEvents(events, account, k))
    {
    }
  }

  /** A snapshot of session `k` of the scan. */
  ghost predicate SnapshotOf(events: seq<Event>, account: string, measure: Measure, x: AccountSnapshot, k: nat)
  {
    && k < |Closes(events, account)| && x.session == Closes(events, account)[k]
    && measure(SessionEvents(events, account, k)) == Account(x.equity, x.used)
  }

  /** The scan's points, which the snapshots are the series of. */
  function ScanPoints(events: seq<Event>, account: string, measure: Measure): Result<seq<Point>>
  {
    var closes := Closes(events, account);
    Points(Ordered(events, account), closes, SessionStamps(events, account), measure, |closes|)
  }

  lemma PointIsSnapshot(events: seq<Event>, account: string, measure: Measure, i: nat)
    requires ScanPoints(events, account, measure).Ok? && i < |ScanPoints(events, account, measure).value|
    ensures var ps := ScanPoints(events, account, measure).value;
      SnapshotOf(events, account, measure, Series(ps)[i], ps[i].index)
  {
    var s, closes, stamps := Ordered(events, account), Closes(events, account), SessionStamps(events, account);
    var ps := ScanPoints(events, account, measure).value;
    PointsAre(s, closes, stamps, measure, |closes|);
    SeriesAt(ps, i);
    assert PointOf(s, closes, stamps, measure, ps[i]);
  }

  /** Every snapshot is of one session's measure. */
  lemma SnapshotIs(events: seq<Event>, account: string, measure: Measure, i: nat) returns (k: nat)
    requires DailySpec(events, account, measure).Ok? && i < |DailySpec(events, account, measure).value|
    ensures SnapshotOf(events, account, measure, DailySpec(events, account, measure).value[i], k)
  {
    PointIsSnapshot(events, account, measure, i);
    k := ScanPoints(events, account, measure).value[i].index;
  }

  /** Every session that measures to an account has its snapshot. */
  lemma SessionHasSnapshot(events: seq<Event>, account: string, measure: Measure, k: nat) returns (i: nat)
    requires DailySpec(events, account, measure).Ok? && k < |Closes(events, account)|
    requires measure(SessionEvents(events, account, k)).Account?
    ensures i < |DailySpec(events, account, measure).value|
    ensures SnapshotOf(events, account, measure, DailySpec(events, account, measure).value[i], k)
  {
    var s, closes, stamps := Ordered(events, account), Closes(events, account), SessionStamps(events, account);
    assert MeasuredAt(s, stamps, measure, k) == measure(SessionEvents(events, account, k));
    i := PointsReach(s, closes, stamps, measure, |closes|, k);
    PointIsSnapshot(events, account, measure, i);
  }

  /**
   * With rising close stamps, each snapshot is the measure of exactly the account's events stamped at or
   * before its own session's close.
   */
  lemma SnapshotsOfOwnEvents(events: seq<Event>, account: string, measure: Measure, i: nat)
    requires Rising(SessionStamps(events, account)) && DailySpec(events, account, measure).Ok?
    requires i < |DailySpec(events, account, measure).value|
    ensures var x := DailySpec(events, account, measure).value[i];
      var stamp := Stamp(events, account, x.session);
      stamp.Some? && measure(UpTo(Ordered(events, account), stamp.value)) == Account(x.equity, x.used)
  {
    var k := SnapshotIs(events, account, measure, i);
    RisingStampsOwn(events, account, k);
    StampsExist(events, account);
    assert Closes(events, account)[k] in Closes(events, account);
  }

  // --- the summaries of the list ---------------------------------------------------------------------------

  /** `d` is the drop from snapshot `j`, of positive equity, to snapshot `i`. */
  ghost predicate DropBetween(ss: seq<AccountSnapshot>, j: nat, i: nat, d: real)
    requires j <= i < |ss|
  {
    ss[j].equity > 0.0 && d == ss[j].equity - ss[i].equity
  }

  lemma SeriesEquity(ps: seq<Point>)
    ensures forall i :: 0 <= i < |ps| ==> Series(ps)[i].equity == ps[i].equity
  {
    forall i | 0 <= i < |ps|
      ensures Series(ps)[i].equity == ps[i].equity
    {
      SeriesAt(ps, i);
    }
  }

  /**
   * The maximum drawdown of an account's snapshots is the largest drop from one of positive equity to a later
   * one, or zero; without any snapshot it is refused.
   */
  lemma MaxDrawdownIs(events: seq<Event>, account: string, measure: Measure)
    requires DailySpec(events, account, measure).Ok?
    ensures var ss := DailySpec(events, account, measure).value; var m := MaxDrawdown(ss);
      && (m.Err? <==> ss == [])
      && (m.Ok? ==>
            && m.value >= 0.0
            && (forall i, j :: 0 <= j <= i < |ss| && ss[j].equity > 0.0 ==> ss[j].equity - ss[i].equity <= m.value)
            && (m.value > 0.0 ==> exists i, j :: 0 <= j <= i < |ss| && DropBetween(ss, j, i, m.value)))
  {
    var ss, ps := DailySpec(events, account, measure).value, ScanPoints(events, account, measure).value;
    if ss != [] {
      SeriesMaxDrawdown(ps);
      SeriesEquity(ps);
      var m := MaxDrawdown(ss).value;
      if m > 0.0 {
        var i, j :| 0 <= j <= i < |ps| && Drop(ps, j, i, m);
        assert DropBetween(ss, j, i, m);
      }
    }
  }

  /** The peak margin of an account's snapshots is the running peak of the last one; without any it is refused. */
  lemma PeakMarginIsLast(events: seq<Event>, account: string, measure: Measure)
    requires DailySpec(events, account, measure).Ok?
    ensures var ss := DailySpec(events, account, measure).value;
      PeakMargin(ss) == if ss == [] then Err else Ok(ss[|ss| - 1].marginPeak)
  {
    if DailySpec(events, account, measure).value != [] {
      SeriesPeakMargin(ScanPoints(events, account, measure).value);
    }
  }

  // --- a session that sees past its close ---------------------------------------------------------------

  /** Session 1's mark is stamped 10, session 2's is stamped 5, and an event lies between. */
  function LateFirstClose(): seq<Event>
  {
    [Event("a", 1, 0, Some(Mark(2, 5)), ""), Event("a", 2, 0, Some(Mark(1, 10)), ""), Event("a", 7, 0, None, "")]
  }

  lemma RisingPair(r: seq<int>)
    requires Rising(r) && forall d :: d in r <==> d == 1 || d == 2
    ensures r == [1, 2]
  {
    var firsts := if |r| > 2 then [r[0], r[1], r[2]] else [];
    assert forall i :: 0 <= i < |r| ==> r[i] in r;
    assert 1 in r && 2 in r;
    var i :| 0 <= i < |r| && r[i] == 1;
    var j :| 0 <= j < |r| && r[j] == 2;
  }

  lemma LateFirstStamps()
    ensures Closes(LateFirstClose(), "a") == [1, 2] && SessionStamps(LateFirstClose(), "a") == [10, 5]
  {
    var es := LateFirstClose();
    assert Marks(es[0], "a", 2) && Marks(es[1], "a", 1);
    assert forall d, i :: 0 <= i < |es| && Marks(es[i], "a", d) ==> d == 1 || d == 2;
    RisingPair(Closes(es, "a"));
    OneMark(es, 1, 1);
    OneMark(es, 2, 0);
  }

  /** The only mark of a date gives its stamp. */
  lemma OneMark(events: seq<Event>, date: int, i: nat)
    requires i < |events| && Marks(events[i], "a", date)
    requires forall j :: 0 <= j < |events| && Marks(events[j], "a", date) ==> j == i
    ensures Stamp(events, "a", date) == Some(events[i].mark.value.at)
  {
  }

  /** The second session folds the event at 7, past its close at 5. */
  lemma SessionSeesPastClose()
    ensures |Closes(LateFirstClose(), "a")| == 2 && SessionStamps(LateFirstClose(), "a")[1] == 5
    ensures SessionEvents(LateFirstClose(), "a", 1) != UpTo(Ordered(LateFirstClose(), "a"), 5)
  {
    var es := LateFirstClose();
    LateFirstStamps();
    assert es[2] in es;
    assert Early(es, "a", 1, es[2]);
    OwnEventsIff(es, "a", 1);
  }
}
