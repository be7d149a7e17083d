/** Fixed windows and what they allow in a sliding span: shared by the login and the upload throttle. */
module Windows {
  import opened Common

  const WINDOW: int := 60 * SECOND

  /** Whole seconds of a duration, rounded toward zero. */
  function NumSeconds(d: int): int { if d >= 0 then d / SECOND else -(-d / SECOND) }

  lemma WholeSeconds(d: int, n: nat)
    ensures n > 0 ==> (NumSeconds(d) >= n <==> d >= n * SECOND)
  {
  }

  ghost predicate Sorted(times: seq<int>) { forall i, j | 0 <= i <= j < |times| :: times[i] <= times[j] }

  /**
   `log` falls into windows of at most `cap` entries; `win[i]` is the index at which the window of entry `i`
   starts. A window is shorter than a minute and the next starts a minute or more after it started or, with
   `cooldown`, after a full window's last entry.
   */
  ghost predicate Windowed(log: seq<int>, win: seq<nat>, cap: nat, cooldown: bool) {
    && |win| == |log| && Sorted(log)
    && (forall i {:trigger win[i]} | 0 <= i < |log| :: win[i] <= i < win[i] + cap && log[i] < log[win[i]] + WINDOW)
    && (forall i | 0 < i < |log| :: Follows(log, win, cap, cooldown, i))
  }

  /** Entry `i` is in its predecessor's window or starts a new one. */
  predicate Follows(log: seq<int>, win: seq<nat>, cap: nat, cooldown: bool, i: int)
    requires 0 < i < |log| == |win| && win[i - 1] < |log|
  {
    win[i] == win[i - 1] || NewWindow(log, win, cap, cooldown, i)
  }

  predicate NewWindow(log: seq<int>, win: seq<nat>, cap: nat, cooldown: bool, i: int)
    requires 0 < i < |log| == |win| && win[i - 1] < |log|
  {
    && win[i] == i && log[i] >= log[win[i - 1]] + WINDOW
    && (cooldown && i == win[i - 1] + cap ==> log[i] >= log[i - 1] + WINDOW)
  }

  /** The first window after entry `i`. */
  lemma {:induction false} NextWindow(log: seq<int>, win: seq<nat>, cap: nat, cooldown: bool, i: nat, far: nat)
    returns (next: nat)
    requires Windowed(log, win, cap, cooldown) && i < far < |log| && far >= win[i] + cap
    ensures i < next <= win[i] + cap && next <= far && win[next - 1] == win[i]
            && NewWindow(log, win, cap, cooldown, next)
    decreases far - i
  {
    assert Follows(log, win, cap, cooldown, i + 1);
    if win[i + 1] == i + 1 {
      next := i + 1;
    } else {
      next := NextWindow(log, win, cap, cooldown, i + 1, far);
    }
  }

  /** At most this many entries fit in a half-open span of one minute. */
  function MostPerSpan(cap: nat, cooldown: bool): int { if cooldown then 2 * cap - 2 else 2 * cap - 1 }

  /** One entry more than that takes a minute or longer. */
  lemma SpanBound(log: seq<int>, win: seq<nat>, cap: nat, cooldown: bool, i: nat)
    requires Windowed(log, win, cap, cooldown) && cap >= 2 && i + MostPerSpan(cap, cooldown) < |log|
    ensures log[i + MostPerSpan(cap, cooldown)] >= log[i] + WINDOW
  {
    var far := i + MostPerSpan(cap, cooldown);
    var b := NextWindow(log, win, cap, cooldown, i, far);
    if i > win[i] && !(cooldown && b == win[i] + cap) {
      var c := NextWindow(log, win, cap, cooldown, b, far);
      assert log[far] >= log[c] >= log[b] + WINDOW;
    }
  }

  /** One more entry, in the last window or in a new one. */
  lemma WindowedAppend(log: seq<int>, win: seq<nat>, cap: nat, cooldown: bool, t: int, w: nat)
    requires Windowed(log, win, cap, cooldown) && (log != [] ==> log[|log| - 1] <= t)
    requires w <= |log| < w + cap
    requires if w == |log| then
               log != [] ==> NewWindow(log + [t], win + [w], cap, cooldown, |log|)
             else win[|log| - 1] == w && t < log[w] + WINDOW
    ensures Windowed(log + [t], win + [w], cap, cooldown)
  {
    var l, v := log + [t], win + [w];
    forall i {:trigger v[i]} | 0 <= i < |l|
      ensures v[i] <= i < v[i] + cap && l[i] < l[v[i]] + WINDOW
    {
      if i < |log| { assert v[i] == win[i] && l[win[i]] == log[win[i]]; }
    }
    forall i | 0 < i < |l|
      ensures Follows(l, v, cap, cooldown, i)
    {
      if i < |log| { FollowsAppend(log, win, cap, cooldown, t, w, i); }
    }
  }

  lemma FollowsAppend(log: seq<int>, win: seq<nat>, cap: nat, cooldown: bool, t: int, w: nat, i: nat)
    requires 0 < i < |log| == |win| && win[i - 1] < |log| && Follows(log, win, cap, cooldown, i)
    ensures Follows(log + [t], win + [w], cap, cooldown, i)
  {
  }

  /** `log` with `k` more entries at time `t`. */
  function Repeated(log: seq<int>, t: int, k: nat): (r: seq<int>)
    ensures |r| == |log| + k && log <= r && forall i | |log| <= i < |r| :: r[i] == t
  {
    if k == 0 then log else Repeated(log, t, k - 1) + [t]
  }
}
