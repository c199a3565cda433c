/** The sliding-window limiter of chat messages (engine/chat_admission.go), for one
    player: at most 5 admitted messages in any 10 seconds of a clock that does not
    run backwards. Times are in nanoseconds. */
module ChatAdmission {
  const RATE_LIMIT_MAX := 5
  const RATE_LIMIT_WINDOW := 10_000_000_000

  predicate InWindow(t: int, now: int) { now - t < RATE_LIMIT_WINDOW }

  /** The timestamps that have not expired, in order. */
  function Unexpired(times: seq<int>, now: int): (r: seq<int>)
    ensures |r| <= |times|
  {
    if times == [] then []
    else
      var n := |times| - 1;
      Unexpired(times[..n], now) + if InWindow(times[n], now) then [times[n]] else []
  }

  datatype Decision = Decision(window: seq<int>, admitted: bool)

  function Allowed(window: seq<int>, now: int): Decision {
    var kept := Unexpired(window, now);
    if |kept| >= RATE_LIMIT_MAX then Decision(kept, false) else Decision(kept + [now], true)
  }

  lemma UnexpiredNone(now: int)
    ensures Unexpired([], now) == []
  {
  }

  lemma UnexpiredStep(times: seq<int>, i: nat, now: int)
    requires i < |times|
    ensures Unexpired(times[..i + 1], now) ==
      Unexpired(times[..i], now) + if InWindow(times[i], now) then [times[i]] else []
  {
    assert times[..i + 1][..i] == times[..i];
  }

  /** The slice of one player: the first `n` elements of an array that grows when full. */
  class Window {
    var buf: array<int>
    var n: nat

    ghost predicate Valid()
      reads this
    {
      n <= buf.Length
    }

    ghost function Times(): seq<int>
      requires Valid()
      reads this, buf
    {
      buf[..n]
    }

    constructor ()
      ensures Valid() && Times() == [] && fresh(buf)
    {
      buf, n := new int[0], 0;
    }

    /** allow: the filter writes the kept timestamps over the slice it reads. */
    method Allow(now: int) returns (admitted: bool)
      requires Valid()
      modifies this, buf
      ensures Valid() && (buf == old(buf) || fresh(buf))
      ensures Decision(Times(), admitted) == Allowed(old(Times()), now)
    {
      hide Unexpired;
      var kept, i := 0, 0;
      ghost var times := Times();
      UnexpiredNone(now);
      assert times[..0] == [];
      while i < n
        invariant 0 <= kept <= i <= n == |times| && buf == old(buf) && n <= buf.Length
        invariant forall k :: i <= k < n ==> buf[k] == times[k]
        invariant buf[..kept] == Unexpired(times[..i], now)
      {
        ghost var before := buf[..kept];
        var t := buf[i];
        UnexpiredStep(times, i, now);
        if InWindow(t, now) {
          buf[kept] := t;
          kept := kept + 1;
          assert buf[..kept] == before + [t];
        }
        i := i + 1;
      }
      assert times[..n] == times;
      n := kept;
      admitted := n < RATE_LIMIT_MAX;
      if admitted {
        Append(now);
      }
    }

    method Append(t: int)
      requires Valid()
      modifies this, buf
      ensures Valid() && (buf == old(buf) || fresh(buf)) && Times() == old(Times()) + [t]
    {
      if n == buf.Length {
        var grown := new int[2 * n + 1];
        var i := 0;
        while i < n
          invariant 0 <= i <= n == old(n) && buf == old(buf) && n <= grown.Length
          invariant grown[..i] == buf[..i]
          invariant buf[..] == old(buf[..])
        {
          grown[i] := buf[i];
          i := i + 1;
        }
        buf := grown;
      }
      buf[n] := t;
      n := n + 1;
    }
  }

  // ---- Every run ---------------------------------------------------------

  /** The messages admitted so far, and the window kept. */
  datatype State = State(admitted: seq<int>, window: seq<int>)

  function Offer(s: State, now: int): State {
    var d := Allowed(s.window, now);
    State(if d.admitted then s.admitted + [now] else s.admitted, d.window)
  }

  function Run(times: seq<int>): State {
    if times == [] then State([], []) else Offer(Run(times[..|times| - 1]), times[|times| - 1])
  }

  ghost predicate NonDecreasing(times: seq<int>) {
    forall i, j :: 0 <= i <= j < |times| ==> times[i] <= times[j]
  }

  /** Dropping expired timestamps early does not change what is unexpired later. */
  lemma {:induction false} ExpiredStayExpired(times: seq<int>, earlier: int, now: int)
    requires earlier <= now
    ensures Unexpired(Unexpired(times, earlier), now) == Unexpired(times, now)
  {
    if times != [] {
      var n := |times| - 1;
      ExpiredStayExpired(times[..n], earlier, now);
      var u := Unexpired(times[..n], earlier);
      if InWindow(times[n], earlier) {
        assert (u + [times[n]])[..|u|] == u;
      } else {
        assert u + [] == u;
      }
    }
  }

  lemma UnexpiredNext(times: seq<int>, t: int, now: int)
    ensures Unexpired(times + [t], now) == Unexpired(times, now) + if InWindow(t, now) then [t] else []
  {
    assert (times + [t])[..|times|] == times;
  }

  lemma {:induction false} AdmittedInOrder(times: seq<int>)
    requires NonDecreasing(times)
    ensures NonDecreasing(Run(times).admitted)
    ensures times == [] ==> Run(times).admitted == []
    ensures forall i :: 0 <= i < |Run(times).admitted| ==> Run(times).admitted[i] <= times[|times| - 1]
  {
    if times != [] {
      var h := times[..|times| - 1];
      AdmittedInOrder(h);
      assert h != [] ==> h[|h| - 1] <= times[|times| - 1];
    }
  }

  /** The window is exactly the admitted messages that have not expired. */
  lemma {:induction false} WindowIsRecent(times: seq<int>, now: int)
    requires NonDecreasing(times) && (times != [] ==> times[|times| - 1] <= now)
    ensures Unexpired(Run(times).window, now) == Unexpired(Run(times).admitted, now)
  {
    if times != [] {
      var h, t := times[..|times| - 1], times[|times| - 1];
      var s := Run(h);
      assert Run(times) == Offer(s, t);
      WindowIsRecent(h, t);
      hide Run, Unexpired;
      ExpiredStayExpired(s.window, t, now);
      ExpiredStayExpired(s.admitted, t, now);
      UnexpiredNext(Unexpired(s.window, t), t, now);
      UnexpiredNext(s.admitted, t, now);
    }
  }

  lemma {:induction false} RecentTail(times: seq<int>, k: nat, now: int)
    requires NonDecreasing(times) && k <= |times| && forall i :: k <= i < |times| ==> InWindow(times[i], now)
    ensures |Unexpired(times, now)| >= |times| - k
  {
    if k < |times| {
      RecentTail(times[..|times| - 1], k, now);
    }
  }

  lemma {:induction false} ExpiredHead(times: seq<int>, k: nat, now: int)
    requires k <= |times| && forall i :: 0 <= i < k ==> !InWindow(times[i], now)
    ensures |Unexpired(times, now)| <= |times| - k
  {
    if k < |times| {
      ExpiredHead(times[..|times| - 1], k, now);
    } else if k > 0 {
      ExpiredHead(times[..k - 1], k - 1, now);
    }
  }

  /** A message is refused exactly when the fifth of the last five admitted before it is
      less than ten seconds old. */
  lemma RefusedExactlyWhenFull(times: seq<int>, now: int)
    requires NonDecreasing(times) && (times != [] ==> times[|times| - 1] <= now)
    ensures var a := Run(times).admitted;
      !Allowed(Run(times).window, now).admitted <==> |a| >= 5 && now - a[|a| - 5] < 10_000_000_000
  {
    var a := Run(times).admitted;
    WindowIsRecent(times, now);
    AdmittedInOrder(times);
    if |a| >= 5 {
      if InWindow(a[|a| - 5], now) {
        RecentTail(a, |a| - 5, now);
      } else {
        ExpiredHead(a, |a| - 4, now);
      }
    }
  }

  /** In every run, any six consecutive admissions span the window at least: an
      interval shorter than the window holds at most five. */
  lemma {:induction false} AtMostFivePerWindow(times: seq<int>, i: nat)
    requires NonDecreasing(times) && i + 5 < |Run(times).admitted|
    ensures Run(times).admitted[i + 5] - Run(times).admitted[i] >= 10_000_000_000
  {
    if times != [] {
      var h, t := times[..|times| - 1], times[|times| - 1];
      var a := Run(h).admitted;
      WindowIsRecent(h, t);
      AdmittedInOrder(h);
      if i + 5 < |a| {
        AtMostFivePerWindow(h, i);
      } else if InWindow(a[i], t) {
        RecentTail(a, i, t);
      }
    }
  }
}
