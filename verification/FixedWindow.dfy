/**
 A counter with a fixed window, the shape of all three limiters of the service: the first hit opens a
 window, later hits count in it, and either hits beyond the quota are refused or the one after the
 quota closes the window and bars the subject for a penalty.

 The bound proved here holds for every span of time that starts in any state.
 */
module FixedWindow {
  import opened Prelude

  /** `lastCounts`: the hit that closes a window still counts as admitted. Times are in milliseconds. */
  datatype Limits = Limits(quota: nat, window: nat, closes: bool, lastCounts: bool, penalty: nat) {
    predicate Sound() {
      quota >= 1 && window > 0 && penalty >= 2 * window
    }

    function Bonus(closed: nat): nat {
      if lastCounts then closed else 0
    }
  }

  /** `hits` is 0 while no window is open. */
  datatype Meter = Meter(now: nat, expiring: bool, hits: nat, until: Option<nat>, barred: bool,
                         barredUntil: Option<nat>)

  datatype Act = Pass(ms: nat) | Hit | Shut

  predicate Over(deadline: Option<nat>, now: nat) {
    deadline.Some? && deadline.value <= now
  }

  function Deadline(m: Meter, ms: nat): Option<nat> {
    if m.expiring then Some(m.now + ms) else None
  }

  function Closing(m: Meter, penalty: nat): Meter {
    m.(hits := 0, until := None, barred := true, barredUntil := Deadline(m, penalty))
  }

  function Next(l: Limits, m: Meter, a: Act): Meter {
    match a
    case Pass(ms) =>
      var now := m.now + ms;
      var m1 := if Over(m.until, now) then m.(hits := 0, until := None) else m;
      var m2 := if Over(m.barredUntil, now) then m1.(barred := false, barredUntil := None) else m1;
      m2.(now := now)
    case Shut => m.(barred := true, barredUntil := Deadline(m, l.penalty))
    case Hit =>
      if m.hits == 0 then m.(hits := 1, until := Deadline(m, l.window))
      else if m.hits < l.quota || !l.closes then m.(hits := m.hits + 1)
      else Closing(m, l.penalty)
  }

  function Admitted(l: Limits, m: Meter, a: Act): nat {
    if !a.Hit? then 0
    else if m.hits < l.quota then 1
    else if l.closes then l.Bonus(1)
    else 0
  }

  /** Nothing is counted while the subject is barred. */
  predicate Enabled(m: Meter, a: Act) {
    a.Hit? ==> !m.barred
  }

  ghost predicate EnabledAll(l: Limits, m: Meter, acts: seq<Act>)
    decreases |acts|
  {
    acts == [] || (Enabled(m, acts[0]) && EnabledAll(l, Next(l, m, acts[0]), acts[1..]))
  }

  function End(l: Limits, m: Meter, acts: seq<Act>): Meter
    decreases |acts|
  {
    if acts == [] then m else End(l, Next(l, m, acts[0]), acts[1..])
  }

  function TotalAdmitted(l: Limits, m: Meter, acts: seq<Act>): nat
    decreases |acts|
  {
    if acts == [] then 0 else Admitted(l, m, acts[0]) + TotalAdmitted(l, Next(l, m, acts[0]), acts[1..])
  }

  /** Deadlines are kept only by an expiring store, and those kept lie ahead. */
  predicate Coherent(m: Meter) {
    && (m.hits == 0 ==> m.until == None) && (!m.barred ==> m.barredUntil == None)
    && (m.expiring && m.hits > 0 ==> m.until.Some?) && (m.expiring && m.barred ==> m.barredUntil.Some?)
    && (!m.expiring ==> m.until == None && m.barredUntil == None)
    && !Over(m.until, m.now) && !Over(m.barredUntil, m.now)
  }

  /**
   What has happened since the span began: hits admitted, windows opened, when the last one was
   (at first: when the span began), windows closed before it, and whether the current one is closed.
   */
  datatype Ledger = Ledger(admitted: nat, windows: nat, last: nat, closedBefore: nat, closed: bool)

  function Booked(l: Limits, m: Meter, g: Ledger, a: Act): Ledger {
    var g1 := g.(admitted := g.admitted + Admitted(l, m, a));
    if !a.Hit? then g1
    else if m.hits == 0 then
      g1.(windows := g.windows + 1, last := m.now,
          closedBefore := g.closedBefore + (if g.closed then 1 else 0), closed := false)
    else if m.hits >= l.quota && l.closes then g1.(closed := true)
    else g1
  }

  /** Hits the open window still has to give. */
  function Spare(l: Limits, m: Meter): nat {
    if 0 < m.hits < l.quota then l.quota - m.hits else 0
  }

  function Closed(g: Ledger): nat {
    g.closedBefore + if g.closed then 1 else 0
  }

  /** How many whole windows fit into a stretch of time. */
  function Whole(d: nat, w: nat): nat
    requires w > 0
  {
    if d < w then 0 else 1 + Whole(d - w, w)
  }

  /** After a closed window no new one opens for a penalty, after any other not for a window. */
  predicate Spaced(l: Limits, m: Meter, g: Ledger) {
    if g.closed then
      m.hits == 0 && (if m.barred then (m.expiring ==> m.barredUntil.Some? && m.barredUntil.value >= g.last + l.penalty)
                      else m.now >= g.last + l.penalty)
    else if m.hits > 0 then
      g.windows > 0 && m.expiring ==> m.until.Some? && m.until.value >= g.last + l.window
    else
      g.windows > 0 ==> m.now >= g.last + l.window
  }

  ghost predicate Kept(l: Limits, start: nat, m: Meter, g: Ledger) {
    && l.Sound() && Coherent(m)
    && g.admitted + Spare(l, m) <= l.quota * g.windows + (l.quota - 1) + l.Bonus(Closed(g))
    && start <= g.last <= m.now
    && (if g.windows == 0 then g.last == start && g.closedBefore == 0
        else g.windows - 1 + g.closedBefore <= Whole(g.last - start, l.window))
    && Spaced(l, m, g)
  }

  lemma {:induction false} MoreTimeMoreWindows(x: nat, y: nat, w: nat)
    requires w > 0 && x <= y
    ensures Whole(x, w) <= Whole(y, w)
    decreases x
  {
    if x < w {
    } else {
      MoreTimeMoreWindows(x - w, y - w, w);
    }
  }

  lemma {:induction false} WholeFits(d: nat, w: nat)
    requires w > 0
    ensures w * Whole(d, w) <= d < w * Whole(d, w) + w
    decreases d
  {
    if d < w {
    } else {
      WholeFits(d - w, w);
      assert w * (1 + Whole(d - w, w)) == w + w * Whole(d - w, w);
    }
  }

  lemma OneFactorMore(w: nat, p: nat, q: nat)
    requires p > q
    ensures w * p >= w * q + w
  {
    assert w * p == w * q + w * (p - q);
    assert w * (p - q) == w + w * (p - q - 1);
  }

  lemma Ordering(w: nat, p: nat, q: nat)
    requires w > 0 && w * p < w * q + w
    ensures p <= q
  {
    if p > q {
      OneFactorMore(w, p, q);
    }
  }

  lemma WholeIsDivision(d: nat, w: nat)
    requires w > 0
    ensures Whole(d, w) == d / w
  {
    WholeFits(d, w);
    assert d == w * (d / w) + d % w;
    Ordering(w, d / w, Whole(d, w));
    Ordering(w, Whole(d, w), d / w);
  }

  lemma OpeningKept(l: Limits, start: nat, m: Meter, g: Ledger)
    requires Kept(l, start, m, g) && m.hits == 0 && !m.barred
    ensures Kept(l, start, Next(l, m, Hit), Booked(l, m, g, Hit))
  {
    assert l.quota * (g.windows + 1) == l.quota * g.windows + l.quota;
    var x, y := g.last - start, m.now - start;
    if g.closed {
      assert y >= x + l.penalty;
      MoreTimeMoreWindows(x, y - l.window - l.window, l.window);
    } else if g.windows > 0 {
      MoreTimeMoreWindows(x, y - l.window, l.window);
    }
  }

  lemma ActKept(l: Limits, start: nat, m: Meter, g: Ledger, a: Act)
    requires Kept(l, start, m, g) && Enabled(m, a)
    ensures Kept(l, start, Next(l, m, a), Booked(l, m, g, a))
  {
    if a.Hit? && m.hits == 0 {
      OpeningKept(l, start, m, g);
    }
  }

  lemma {:induction false} ActsKept(l: Limits, start: nat, m: Meter, g: Ledger, acts: seq<Act>) returns (g': Ledger)
    requires Kept(l, start, m, g) && EnabledAll(l, m, acts)
    ensures Kept(l, start, End(l, m, acts), g')
    ensures g'.admitted == g.admitted + TotalAdmitted(l, m, acts)
    decreases |acts|
  {
    g' := g;
    if acts == [] {
    } else {
      ActKept(l, start, m, g, acts[0]);
      g' := ActsKept(l, start, Next(l, m, acts[0]), Booked(l, m, g, acts[0]), acts[1..]);
    }
  }

  lemma {:induction false} Products(q: nat, a: nat, b: nat, c: nat)
    requires q >= 1 && a + b <= c
    ensures q * a + b <= q * c
    decreases c
  {
    if a == c {
    } else {
      Products(q, a, if b > 0 then b - 1 else 0, c - 1);
      assert q * c == q * (c - 1) + q;
    }
  }

  /** The most hits that d milliseconds can see admitted. */
  function Ceiling(l: Limits, d: nat): int
    requires l.window > 0
  {
    l.quota * (d / l.window + 1) + l.quota - 1 + l.Bonus(1)
  }

  lemma Settle(l: Limits, start: nat, m: Meter, g: Ledger)
    requires Kept(l, start, m, g)
    ensures g.admitted <= Ceiling(l, m.now - start)
  {
    var d := (m.now - start) / l.window;
    MoreTimeMoreWindows(g.last - start, m.now - start, l.window);
    WholeIsDivision(m.now - start, l.window);
    Products(l.quota, g.windows, g.closedBefore, d + 1);
  }

  /**
   However hits, waiting and outside bars alternate, a span of d milliseconds admits at most
   quota (d / window + 1) + quota - 1 hits, plus one if the closing hit counts.
   */
  lemma SpanBound(l: Limits, m: Meter, acts: seq<Act>)
    requires l.Sound() && Coherent(m) && EnabledAll(l, m, acts)
    ensures End(l, m, acts).now >= m.now
    ensures TotalAdmitted(l, m, acts) <= Ceiling(l, End(l, m, acts).now - m.now)
  {
    var g := Ledger(0, 0, m.now, 0, false);
    var g' := ActsKept(l, m.now, m, g, acts);
    Settle(l, m.now, End(l, m, acts), g');
  }

  // The bound is attained.

  function Hits(n: nat): seq<Act> {
    if n == 0 then [] else [Hit] + Hits(n - 1)
  }

  /** `n` windows used up, then one used up and closed. */
  function Rounds(l: Limits, n: nat): seq<Act> {
    if n == 0 then Hits(l.quota + l.Bonus(1)) else Hits(l.quota) + ([Pass(l.window)] + Rounds(l, n - 1))
  }

  /** What an earlier window still has to give, just before it ends, then the windows from there on. */
  function Fullest(l: Limits, n: nat): seq<Act>
    requires l.quota >= 1
  {
    Hits(l.quota - 1) + ([Pass(1)] + Rounds(l, n))
  }

  /** What a sequence of acts comes to. */
  ghost predicate Yields(l: Limits, m: Meter, acts: seq<Act>, end: Meter, admitted: nat) {
    EnabledAll(l, m, acts) && End(l, m, acts) == end && TotalAdmitted(l, m, acts) == admitted
  }

  lemma {:induction false} YieldsConcat(l: Limits, m: Meter, a: seq<Act>, mid: Meter, x: nat, b: seq<Act>, end: Meter,
                                        y: nat)
    requires Yields(l, m, a, mid, x) && Yields(l, mid, b, end, y)
    ensures Yields(l, m, a + b, end, x + y)
    decreases |a|
  {
    if a == [] {
      assert a + b == b;
    } else {
      assert (a + b)[1..] == a[1..] + b;
      YieldsConcat(l, Next(l, m, a[0]), a[1..], mid, x - Admitted(l, m, a[0]), b, end, y);
    }
  }

  lemma OneYields(l: Limits, m: Meter, a: Act)
    requires Enabled(m, a)
    ensures Yields(l, m, [a], Next(l, m, a), Admitted(l, m, a))
  {
    assert [a][1..] == [];
    assert Yields(l, Next(l, m, a), [], Next(l, m, a), 0);
  }

  lemma {:induction false} HitsYield(l: Limits, m: Meter, n: nat)
    requires !m.barred && 0 < m.hits && m.hits + n <= l.quota
    ensures Yields(l, m, Hits(n), m.(hits := m.hits + n), n)
    decreases n
  {
    if n == 0 {
    } else {
      OneYields(l, m, Hit);
      var m1 := m.(hits := m.hits + 1);
      HitsYield(l, m1, n - 1);
      YieldsConcat(l, m, [Hit], m1, 1, Hits(n - 1), m1.(hits := m1.hits + n - 1), n - 1);
    }
  }

  /** A whole window from its first hit on. */
  lemma WindowYields(l: Limits, m: Meter)
    requires l.Sound() && !m.barred && m.hits == 0
    ensures Yields(l, m, Hits(l.quota), m.(hits := l.quota, until := Deadline(m, l.window)), l.quota)
  {
    var m1 := m.(hits := 1, until := Deadline(m, l.window));
    OneYields(l, m, Hit);
    HitsYield(l, m1, l.quota - 1);
    YieldsConcat(l, m, [Hit], m1, 1, Hits(l.quota - 1), m1.(hits := l.quota), l.quota - 1);
  }

  lemma {:induction false} HitsConcat(a: nat, b: nat)
    ensures Hits(a) + Hits(b) == Hits(a + b)
  {
    if a == 0 {
    } else {
      HitsConcat(a - 1, b);
      assert Hits(a) + Hits(b) == [Hit] + (Hits(a - 1) + Hits(b));
    }
  }

  /** A window from its first hit to the hit that closes it, if that counts. */
  lemma LastWindowYields(l: Limits, m: Meter) returns (end: Meter)
    requires l.Sound() && (l.lastCounts ==> l.closes) && !m.barred && m.hits == 0
    ensures Yields(l, m, Hits(l.quota + l.Bonus(1)), end, l.quota + l.Bonus(1)) && end.now == m.now
  {
    var full := m.(hits := l.quota, until := Deadline(m, l.window));
    WindowYields(l, m);
    end := full;
    if l.lastCounts {
      OneYields(l, full, Hit);
      end := Next(l, full, Hit);
      YieldsConcat(l, m, Hits(l.quota), full, l.quota, [Hit], end, 1);
      HitsConcat(l.quota, 1);
      assert Hits(1) == [Hit] + Hits(0) == [Hit];
      assert Hits(l.quota) + [Hit] == Hits(l.quota + l.Bonus(1));
    }
  }

  lemma {:induction false} RoundsYield(l: Limits, m: Meter, n: nat) returns (end: Meter)
    requires l.Sound() && (l.lastCounts ==> l.closes) && m.expiring && !m.barred && m.barredUntil == None && m.hits == 0
    ensures Yields(l, m, Rounds(l, n), end, l.quota * n + l.quota + l.Bonus(1))
    ensures end.now == m.now + l.window * n
    decreases n
  {
    if n == 0 {
      end := LastWindowYields(l, m);
    } else {
      var full := m.(hits := l.quota, until := Deadline(m, l.window));
      WindowYields(l, m);
      OneYields(l, full, Pass(l.window));
      var next := Next(l, full, Pass(l.window));
      end := RoundsYield(l, next, n - 1);
      assert l.quota * n == l.quota * (n - 1) + l.quota && l.window * n == l.window * (n - 1) + l.window;
      var rest := l.quota * (n - 1) + l.quota + l.Bonus(1);
      YieldsConcat(l, full, [Pass(l.window)], next, 0, Rounds(l, n - 1), end, rest);
      YieldsConcat(l, m, Hits(l.quota), full, l.quota, [Pass(l.window)] + Rounds(l, n - 1), end, rest);
    }
  }

  lemma {:induction false} WindowsInRounds(n: nat, w: nat)
    requires w > 1
    ensures (w * n + 1) / w == n
  {
    WholeIsDivision(w * n + 1, w);
    if n == 0 {
    } else {
      WindowsInRounds(n - 1, w);
      WholeIsDivision(w * (n - 1) + 1, w);
      assert w * n == w * (n - 1) + w;
    }
  }

  /** One hit was made in the open window, and a moment is left of it. */
  predicate AtLastMoment(m: Meter) {
    m.expiring && !m.barred && m.barredUntil == None && m.hits == 1 && m.until == Some(m.now + 1)
  }

  predicate Untouched(m: Meter) {
    m.expiring && !m.barred && m.barredUntil == None && m.hits == 0 && m.until == None
  }

  function Opening(l: Limits): seq<Act>
    requires l.window > 1
  {
    [Hit] + [Pass(l.window - 1)]
  }

  /** One hit, and all of the window it opens but a moment. */
  lemma OpeningYields(l: Limits, m: Meter) returns (end: Meter)
    requires l.window > 1 && l.quota >= 1 && Untouched(m)
    ensures Yields(l, m, Opening(l), end, 1) && AtLastMoment(end)
    ensures forall i :: 0 <= i < |Opening(l)| ==> !Opening(l)[i].Shut?
  {
    var m1 := Next(l, m, Hit);
    end := Next(l, m1, Pass(l.window - 1));
    OneYields(l, m, Hit);
    OneYields(l, m1, Pass(l.window - 1));
    YieldsConcat(l, m, [Hit], m1, 1, [Pass(l.window - 1)], end, 0);
  }

  /** A span that begins just before the end of a window in which one hit was made sees as many hits as it can. */
  lemma SpanBoundAttained(l: Limits, m: Meter, n: nat) returns (end: Meter)
    requires l.Sound() && (l.lastCounts ==> l.closes) && l.window > 1
    requires AtLastMoment(m)
    ensures end.now >= m.now && (end.now - m.now) / l.window == n
    ensures Yields(l, m, Fullest(l, n), end, Ceiling(l, end.now - m.now))
  {
    var used := m.(hits := l.quota);
    HitsYield(l, m, l.quota - 1);
    OneYields(l, used, Pass(1));
    var next := Next(l, used, Pass(1));
    end := RoundsYield(l, next, n);
    WindowsInRounds(n, l.window);
    var rest := l.quota * n + l.quota + l.Bonus(1);
    YieldsConcat(l, used, [Pass(1)], next, 0, Rounds(l, n), end, rest);
    YieldsConcat(l, m, Hits(l.quota - 1), used, l.quota - 1, [Pass(1)] + Rounds(l, n), end, rest);
    assert l.quota * (n + 1) == l.quota * n + l.quota;
  }
}
