/**
 * The toast notification queue of ImDL's widget header: timed notices that
 * producers append and that the render loop ages, fades and evicts once per
 * frame. Opacity, time and frame delta are reals; drawing is not modelled,
 * only the layout arithmetic that decides where each kept toast goes.
 */
module Toasts {
  import opened Options

  datatype ToastLevel = Debug | Info | Warning | Error

  /** One notice and its animation state, with the field defaults of the source. */
  datatype Toast = Toast(
    message: string,
    level: ToastLevel,
    alpha: real,
    fadeSpeed: real,
    displayTime: real,
    startTime: real,
    isFading: bool,
    isVisible: bool)

  const DefaultFadeSpeed: real := 0.75
  const DefaultDisplayTime: real := 3.0

  // Layout constants of the render pass.
  const Padding: real := 10.0
  const Margin: real := 10.0
  const BottomInset: real := 20.0
  const MinTextHeight: real := 24.0
  const ToastWidth: real := 300.0
  const IconWidth: real := 20.0

  /** The width the message is wrapped to, inside the padding and beside the icon. */
  const TextAreaWidth: real := ToastWidth - Padding * 2.0 - IconWidth

  /** A toast as `Show` leaves it: fully opaque, not fading, stamped with `now`. */
  function NewToast(message: string, level: ToastLevel, now: real): (t: Toast)
    ensures WellFormed(t) && t.alpha == 1.0 && !t.isFading && t.isVisible
    ensures t.message == message && t.level == level && t.startTime == now
  {
    Toast(message, level, 1.0, DefaultFadeSpeed, DefaultDisplayTime, now, false, true)
  }

  /** Everything the aging pass must never change about a toast. */
  predicate SameNotice(a: Toast, b: Toast)
  {
    a.message == b.message && a.level == b.level && a.startTime == b.startTime &&
    a.fadeSpeed == b.fadeSpeed && a.displayTime == b.displayTime
  }

  /** The removal condition of one pass: fading (already, or from this pass on) and faded out. */
  predicate FadesOut(t: Toast, now: real, deltaTime: real)
  {
    (t.isFading || now - t.startTime > t.displayTime) && t.alpha - t.fadeSpeed * deltaTime <= 0.0
  }

  /**
   * One toast through one aging pass at time `now` with frame delta
   * `deltaTime`: `None` when it is dropped, otherwise its new state.
   */
  function AgeToast(t: Toast, now: real, deltaTime: real): (r: Option<Toast>)
    // a toast inside its display time that is not fading is left exactly as it was
    ensures !t.isFading && now - t.startTime <= t.displayTime ==> r == Some(t)
    // it is dropped exactly when it fades out
    ensures r.None? <==> FadesOut(t, now, deltaTime)
    // a kept toast is the same notice; it is fading once its display time is over, and never stops fading
    ensures r.Some? ==> SameNotice(r.value, t) && r.value.isVisible == t.isVisible
    ensures r.Some? ==> (r.value.isFading <==> t.isFading || now - t.startTime > t.displayTime)
    // a fading toast loses exactly fadeSpeed * deltaTime of opacity, and a kept fading one is still visible
    ensures r.Some? && r.value.isFading ==> r.value.alpha == t.alpha - t.fadeSpeed * deltaTime && r.value.alpha > 0.0
    ensures r.Some? && !r.value.isFading ==> r.value.alpha == t.alpha
    // so opacity never grows while time moves forward
    ensures r.Some? && t.fadeSpeed >= 0.0 && deltaTime >= 0.0 ==> r.value.alpha <= t.alpha
  {
    var elapsed := now - t.startTime;
    var started := if elapsed > t.displayTime && !t.isFading then t.(isFading := true) else t;
    if started.isFading then
      var faded := started.(alpha := started.alpha - started.fadeSpeed * deltaTime);
      if faded.alpha <= 0.0 then None else Some(faded)
    else
      Some(started)
  }

  /** The survivors of one aging pass over a queue, in the queue's order. */
  function Aged(q: seq<Toast>, now: real, deltaTime: real): (r: seq<Toast>)
    ensures |r| <= |q|
  {
    if q == [] then [] else Kept(q[0], now, deltaTime) + Aged(q[1..], now, deltaTime)
  }

  function Kept(t: Toast, now: real, deltaTime: real): seq<Toast>
  {
    match AgeToast(t, now, deltaTime)
    case None => []
    case Some(u) => [u]
  }

  /** A sequence read back to front. */
  function Reversed<T>(s: seq<T>): (r: seq<T>)
    ensures |r| == |s|
  {
    if s == [] then [] else Reversed(s[1..]) + [s[0]]
  }

  /** Height of a toast whose wrapped message is `textHeight` tall: at least the minimum, plus padding. */
  function ToastHeight(textHeight: real): (h: real)
    ensures h >= MinTextHeight + 2.0 * Padding
    ensures h >= textHeight + 2.0 * Padding
    ensures h == textHeight + 2.0 * Padding || h == MinTextHeight + 2.0 * Padding
  {
    (if textHeight > MinTextHeight then textHeight else MinTextHeight) + Padding * 2.0
  }

  /** Heights of the toasts in the order they are stacked. */
  function StackHeights(s: seq<Toast>, textHeight: (string, real) -> real): (hs: seq<real>)
    ensures |hs| == |s|
    ensures forall k :: 0 <= k < |s| ==> hs[k] == ToastHeight(textHeight(s[k].message, TextAreaWidth))
  {
    seq(|s|, k requires 0 <= k < |s| => ToastHeight(textHeight(s[k].message, TextAreaWidth)))
  }

  /** How far the stacking offset has moved up after placing toasts of these heights. */
  function StackSpan(hs: seq<real>): real
  {
    if hs == [] then 0.0 else StackSpan(hs[..|hs| - 1]) + hs[|hs| - 1] + Margin
  }

  /** The invariant every stored toast keeps. */
  predicate WellFormed(t: Toast)
  {
    0.0 < t.alpha <= 1.0 && (!t.isFading ==> t.alpha == 1.0) &&
    t.fadeSpeed == DefaultFadeSpeed && t.displayTime == DefaultDisplayTime && t.isVisible
  }

  predicate AllWellFormed(q: seq<Toast>)
  {
    forall k :: 0 <= k < |q| ==> WellFormed(q[k])
  }

  /**
   * The process-wide toast queue. Producers append with Show; the render
   * loop replaces the whole sequence with its aged copy in RenderAll.
   */
  class ToastSystem {
    var queue: seq<Toast>

    ghost predicate Valid()
      reads this
    {
      AllWellFormed(queue)
    }

    constructor ()
      ensures queue == [] && Valid()
    {
      queue := [];
    }

    /** Appends one new toast at the end; earlier toasts are untouched. */
    method Show(message: string, level: ToastLevel, now: real)
      modifies this
      ensures queue == old(queue) + [NewToast(message, level, now)]
      ensures old(Valid()) ==> Valid()
    {
      var toast := Toast(message, level, 1.0, DefaultFadeSpeed, DefaultDisplayTime, 0.0, false, true);
      toast := toast.(startTime := now);
      toast := toast.(isFading := false);
      toast := toast.(isVisible := true);
      toast := toast.(alpha := 1.0);
      toast := toast.(fadeSpeed := DefaultFadeSpeed);
      toast := toast.(displayTime := DefaultDisplayTime);
      queue := queue + [toast];
    }

    /**
     * The aging part of one frame's render pass. Walks a snapshot newest
     * first, collecting survivors and their stacking heights, then writes
     * the survivors back in reverse so that they keep their queue order.
     * Returns the heights of the drawn toasts, newest first, and the final
     * stacking offset. `textHeight` measures a message wrapped to a width.
     */
    method RenderAll(now: real, deltaTime: real, displayHeight: real, textHeight: (string, real) -> real)
      returns (heights: seq<real>, yOffset: real)
      modifies this
      ensures queue == Aged(old(queue), now, deltaTime)
      ensures heights == StackHeights(Reversed(queue), textHeight)
      ensures yOffset == displayHeight - BottomInset - StackSpan(heights)
      ensures old(Valid()) && deltaTime >= 0.0 ==> Valid()
    {
      var local := queue;
      yOffset := displayHeight - BottomInset;
      var updated: seq<Toast> := [];
      heights := [];
      var i := |local|;
      while i > 0
        invariant 0 <= i <= |local|
        invariant updated == Reversed(Aged(local[i..], now, deltaTime))
        invariant heights == StackHeights(updated, textHeight)
        invariant yOffset == displayHeight - BottomInset - StackSpan(heights)
      {
        i := i - 1;
        var aged := AgeOne(local[i], now, deltaTime);
        if aged.None? {
          assert Aged(local[i..], now, deltaTime) == Aged(local[i + 1..], now, deltaTime) by {
            assert local[i..][1..] == local[i + 1..];
          }
          continue;
        }
        var toast := aged.value;
        AgedStep(local, i, now, deltaTime, toast);
        StackHeightsAppend(updated, toast, textHeight);
        updated := updated + [toast];
        var toastHeight := ToastHeight(textHeight(toast.message, TextAreaWidth));
        StackSpanAppend(heights, toastHeight);
        heights := heights + [toastHeight];
        yOffset := yOffset - (toastHeight + Margin);
      }
      assert local[0..] == local;
      queue := [];
      var j := |updated|;
      while j > 0
        invariant 0 <= j <= |updated|
        invariant queue == Reversed(updated[j..])
      {
        assert updated[j - 1..][1..] == updated[j..];
        queue := queue + [updated[j - 1]];
        j := j - 1;
      }
      assert updated[0..] == updated;
      ReversedTwice(Aged(local, now, deltaTime));
      if deltaTime >= 0.0 && AllWellFormed(local) {
        AgedKeepsWellFormed(local, now, deltaTime);
      }
    }
  }

  /**
   * One toast's step of the pass, on a copy: it starts fading once its
   * display time is over, loses opacity while fading, and is dropped (made
   * invisible and skipped) when its opacity reaches zero.
   */
  method AgeOne(t: Toast, now: real, deltaTime: real) returns (r: Option<Toast>)
    ensures r == AgeToast(t, now, deltaTime)
  {
    var toast := t;
    var elapsed := now - toast.startTime;
    if elapsed > toast.displayTime && !toast.isFading {
      toast := toast.(isFading := true);
    }
    if !toast.isFading {
      return Some(toast);
    }
    var loss := toast.fadeSpeed * deltaTime;
    var faded := toast.(alpha := toast.alpha - loss);
    if faded.alpha <= 0.0 {
      faded := faded.(isVisible := false);
      return None;
    }
    KeptWhileFading(t, now, deltaTime, toast, loss);
    return Some(faded);
  }

  /** The kept-while-fading case of one pass, with the fading state and the opacity lost named. */
  lemma KeptWhileFading(t: Toast, now: real, deltaTime: real, started: Toast, loss: real)
    requires started == (if now - t.startTime > t.displayTime && !t.isFading then t.(isFading := true) else t)
    requires started.isFading && loss == started.fadeSpeed * deltaTime && started.alpha - loss > 0.0
    ensures AgeToast(t, now, deltaTime) == Some(started.(alpha := started.alpha - loss))
  {
  }

  lemma StackHeightsAppend(s: seq<Toast>, t: Toast, textHeight: (string, real) -> real)
    ensures StackHeights(s + [t], textHeight) == StackHeights(s, textHeight) + [ToastHeight(textHeight(t.message, TextAreaWidth))]
  {
  }

  lemma StackSpanAppend(hs: seq<real>, h: real)
    ensures StackSpan(hs + [h]) == StackSpan(hs) + h + Margin
  {
    assert (hs + [h])[..|hs|] == hs;
  }

  /** The reverse walk's step for a kept toast: it is the one aging pass result at that position. */
  lemma AgedStep(local: seq<Toast>, i: nat, now: real, deltaTime: real, toast: Toast)
    requires i < |local|
    requires AgeToast(local[i], now, deltaTime) == Some(toast)
    ensures Reversed(Aged(local[i..], now, deltaTime)) == Reversed(Aged(local[i + 1..], now, deltaTime)) + [toast]
  {
    assert local[i..][1..] == local[i + 1..];
    var rest := Aged(local[i + 1..], now, deltaTime);
    assert Aged(local[i..], now, deltaTime) == [toast] + rest;
    assert ([toast] + rest)[1..] == rest;
  }

  /** Reversal turns a concatenation around. */
  lemma {:induction false} ReversedAppend<T>(a: seq<T>, b: seq<T>)
    ensures Reversed(a + b) == Reversed(b) + Reversed(a)
  {
    if a == [] {
      assert a + b == b;
    } else {
      assert (a + b)[1..] == a[1..] + b;
      ReversedAppend(a[1..], b);
    }
  }

  /** Reversing twice gives back the sequence: the write-back undoes the reverse walk. */
  lemma {:induction false} ReversedTwice<T>(s: seq<T>)
    ensures Reversed(Reversed(s)) == s
  {
    if s != [] {
      ReversedAppend(Reversed(s[1..]), [s[0]]);
      assert Reversed([s[0]]) == [s[0]];
      ReversedTwice(s[1..]);
    }
  }

  /** Aging distributes over concatenation: each toast's fate depends on that toast alone. */
  lemma {:induction false} AgedAppend(a: seq<Toast>, b: seq<Toast>, now: real, deltaTime: real)
    ensures Aged(a + b, now, deltaTime) == Aged(a, now, deltaTime) + Aged(b, now, deltaTime)
  {
    if a == [] {
      assert a + b == b;
    } else {
      var kept := Kept(a[0], now, deltaTime);
      assert (a + b)[0] == a[0] && (a + b)[1..] == a[1..] + b;
      AgedAppend(a[1..], b, now, deltaTime);
      assert Aged(a + b, now, deltaTime) == kept + Aged(a[1..] + b, now, deltaTime);
    }
  }

  /** A toast shown in this frame survives this frame's pass unchanged, at the end of the queue. */
  lemma ShowThenAge(q: seq<Toast>, message: string, level: ToastLevel, now: real, deltaTime: real)
    ensures Aged(q + [NewToast(message, level, now)], now, deltaTime)
         == Aged(q, now, deltaTime) + [NewToast(message, level, now)]
  {
    var t := NewToast(message, level, now);
    AgedAppend(q, [t], now, deltaTime);
    assert [t][1..] == [];
  }

  /** With time moving forward, a pass keeps every stored toast well formed. */
  lemma {:induction false} AgedKeepsWellFormed(q: seq<Toast>, now: real, deltaTime: real)
    requires AllWellFormed(q) && deltaTime >= 0.0
    ensures AllWellFormed(Aged(q, now, deltaTime))
  {
    if q != [] {
      assert WellFormed(q[0]);
      assert AllWellFormed(q[1..]) by {
        forall k | 0 <= k < |q[1..]| ensures WellFormed(q[1..][k]) {
          assert q[1..][k] == q[k + 1];
        }
      }
      AgedKeepsWellFormed(q[1..], now, deltaTime);
    }
  }

  /**
   * The survivors are exactly the toasts the pass keeps, in their original
   * order: an increasing choice of positions in the old queue, each the
   * aged state of the toast there, missing no toast that is kept.
   */
  lemma AgedPositions(q: seq<Toast>, now: real, deltaTime: real) returns (idx: seq<nat>)
    ensures |idx| == |Aged(q, now, deltaTime)|
    ensures forall k :: 0 <= k < |idx| ==>
      idx[k] < |q| && AgeToast(q[idx[k]], now, deltaTime) == Some(Aged(q, now, deltaTime)[k])
    ensures forall k, m :: 0 <= k < m < |idx| ==> idx[k] < idx[m]
    ensures forall j :: 0 <= j < |q| && AgeToast(q[j], now, deltaTime).Some? ==> j in idx
  {
    var fates := Fates(q, now, deltaTime);
    AgedIsPresent(q, now, deltaTime);
    idx := PresentPositions(fates);
    forall j | 0 <= j < |q| && AgeToast(q[j], now, deltaTime).Some? ensures j in idx {
      assert fates[j].Some?;
    }
  }

  /** The fate of every toast of the queue under one pass. */
  function Fates(q: seq<Toast>, now: real, deltaTime: real): (fs: seq<Option<Toast>>)
    ensures |fs| == |q| && forall k :: 0 <= k < |q| ==> fs[k] == AgeToast(q[k], now, deltaTime)
  {
    seq(|q|, k requires 0 <= k < |q| => AgeToast(q[k], now, deltaTime))
  }

  /** The values present in a sequence of options, in order. */
  function Present<T>(os: seq<Option<T>>): seq<T>
  {
    if os == [] then [] else (if os[0].Some? then [os[0].value] else []) + Present(os[1..])
  }

  lemma {:induction false} AgedIsPresent(q: seq<Toast>, now: real, deltaTime: real)
    ensures Aged(q, now, deltaTime) == Present(Fates(q, now, deltaTime))
  {
    if q != [] {
      AgedIsPresent(q[1..], now, deltaTime);
      assert Fates(q, now, deltaTime)[1..] == Fates(q[1..], now, deltaTime);
    }
  }

  lemma PresentPositions<T>(os: seq<Option<T>>) returns (idx: seq<nat>)
    ensures |idx| == |Present(os)|
    ensures forall k :: 0 <= k < |idx| ==> idx[k] < |os| && os[idx[k]] == Some(Present(os)[k])
    ensures forall k, m :: 0 <= k < m < |idx| ==> idx[k] < idx[m]
    ensures forall j :: 0 <= j < |os| && os[j].Some? ==> j in idx
  {
    idx := Positions(os);
    PositionsPoint(os);
    assert PointsAt(os, idx, Present(os));
    PositionsIncrease(os);
    assert Increasing(idx);
    PositionsComplete(os);
    assert Covers(os, idx);
  }

  /** The indexes of the present values, in order. */
  function Positions<T>(os: seq<Option<T>>): (idx: seq<nat>)
    ensures |idx| == |Present(os)|
  {
    if os == [] then []
    else
      (if os[0].Some? then [0] else []) + Shifted(Positions(os[1..]))
  }

  /** Each index points at the value of the same rank. */
  ghost predicate PointsAt<T>(os: seq<Option<T>>, idx: seq<nat>, values: seq<T>)
  {
    |idx| == |values| && forall k :: 0 <= k < |idx| ==> idx[k] < |os| && os[idx[k]] == Some(values[k])
  }

  function Shifted(idx: seq<nat>): (r: seq<nat>)
    ensures |r| == |idx| && forall k :: 0 <= k < |idx| ==> r[k] == idx[k] + 1
  {
    seq(|idx|, k requires 0 <= k < |idx| => idx[k] + 1)
  }

  lemma ShiftedPoints<T>(o: Option<T>, os: seq<Option<T>>, idx: seq<nat>, values: seq<T>)
    requires PointsAt(os, idx, values)
    ensures PointsAt([o] + os, Shifted(idx), values)
  {
    forall k | 0 <= k < |idx| ensures Shifted(idx)[k] < |[o] + os| && ([o] + os)[Shifted(idx)[k]] == Some(values[k]) {
      assert ([o] + os)[idx[k] + 1] == os[idx[k]];
    }
  }

  lemma ConsPoints<T>(v: T, os: seq<Option<T>>, idx: seq<nat>, values: seq<T>)
    requires PointsAt([Some(v)] + os, Shifted(idx), values)
    ensures PointsAt([Some(v)] + os, [0] + Shifted(idx), [v] + values)
  {
  }

  lemma {:induction false} PositionsPoint<T>(os: seq<Option<T>>)
    ensures PointsAt(os, Positions(os), Present(os))
  {
    if os != [] {
      var tail := os[1..];
      PositionsPoint(tail);
      assert os == [os[0]] + tail;
      ShiftedPoints(os[0], tail, Positions(tail), Present(tail));
      if os[0].Some? {
        ConsPoints(os[0].value, tail, Positions(tail), Present(tail));
      }
    }
  }

  predicate Increasing(idx: seq<nat>)
  {
    forall k, m :: 0 <= k < m < |idx| ==> idx[k] < idx[m]
  }

  lemma ShiftedIncreasing(idx: seq<nat>)
    requires Increasing(idx)
    ensures Increasing(Shifted(idx)) && Increasing([0] + Shifted(idx))
  {
    var r := [0] + Shifted(idx);
    forall k, m | 0 <= k < m < |r| ensures r[k] < r[m] {
      if k > 0 {
        assert r[k] == idx[k - 1] + 1 && r[m] == idx[m - 1] + 1;
      }
    }
  }

  lemma {:induction false} PositionsIncrease<T>(os: seq<Option<T>>)
    ensures Increasing(Positions(os))
  {
    if os != [] {
      PositionsIncrease(os[1..]);
      ShiftedIncreasing(Positions(os[1..]));
    }
  }

  /** Every present value's index is listed. */
  ghost predicate Covers<T>(os: seq<Option<T>>, idx: seq<nat>)
  {
    forall j :: 0 <= j < |os| && os[j].Some? ==> j in idx
  }

  lemma ShiftedCovers<T>(o: Option<T>, os: seq<Option<T>>, idx: seq<nat>)
    requires Covers(os, idx)
    ensures Covers([o] + os, (if o.Some? then [0] else []) + Shifted(idx))
  {
    var all := [o] + os;
    var r := (if o.Some? then [0] else []) + Shifted(idx);
    var d := if o.Some? then 1 else 0;
    forall j | 0 <= j < |all| && all[j].Some? ensures j in r {
      if j > 0 {
        assert os[j - 1] == all[j];
        var k :| 0 <= k < |idx| && idx[k] == j - 1;
        assert r[k + d] == j;
      } else {
        assert r[0] == 0;
      }
    }
  }

  lemma {:induction false} PositionsComplete<T>(os: seq<Option<T>>)
    ensures Covers(os, Positions(os))
  {
    if os != [] {
      PositionsComplete(os[1..]);
      ShiftedCovers(os[0], os[1..], Positions(os[1..]));
      assert [os[0]] + os[1..] == os;
    }
  }

  /**
   * The level only chooses colour and icon: two queues that differ only in
   * levels keep the same toasts, with the same state apart from the level.
   */
  lemma {:induction false} RetentionIgnoresLevel(p: seq<Toast>, q: seq<Toast>, now: real, deltaTime: real)
    requires |p| == |q|
    requires forall k :: 0 <= k < |p| ==> p[k] == q[k].(level := p[k].level)
    ensures |Aged(p, now, deltaTime)| == |Aged(q, now, deltaTime)|
    ensures forall k :: 0 <= k < |Aged(p, now, deltaTime)| ==>
      Aged(p, now, deltaTime)[k] == Aged(q, now, deltaTime)[k].(level := Aged(p, now, deltaTime)[k].level)
  {
    if p != [] {
      AgeIgnoresLevel(q[0], p[0].level, now, deltaTime);
      RetentionIgnoresLevel(p[1..], q[1..], now, deltaTime);
      var a, b := Aged(p[1..], now, deltaTime), Aged(q[1..], now, deltaTime);
      assert Aged(p, now, deltaTime) == Kept(p[0], now, deltaTime) + a;
      assert Aged(q, now, deltaTime) == Kept(q[0], now, deltaTime) + b;
    }
  }

  lemma AgeIgnoresLevel(t: Toast, level: ToastLevel, now: real, deltaTime: real)
    ensures AgeToast(t.(level := level), now, deltaTime).Some? == AgeToast(t, now, deltaTime).Some?
    ensures AgeToast(t, now, deltaTime).Some? ==>
      AgeToast(t.(level := level), now, deltaTime).value == AgeToast(t, now, deltaTime).value.(level := level)
  {
  }

  /** Every kept toast makes the stack at least the minimum height plus the margin taller. */
  lemma {:induction false} StackSpanAtLeast(hs: seq<real>)
    requires forall k :: 0 <= k < |hs| ==> hs[k] >= MinTextHeight + 2.0 * Padding
    ensures StackSpan(hs) >= (MinTextHeight + 2.0 * Padding + Margin) * (|hs| as real)
  {
    if hs != [] {
      StackSpanAtLeast(hs[..|hs| - 1]);
    }
  }

  /** The toast's life across frames: one aging pass per frame time in `times`, `prev` the frame before. */
  function AgeThrough(o: Option<Toast>, prev: real, times: seq<real>): Option<Toast>
    decreases |times|
  {
    if times == [] || o.None? then o
    else AgeThrough(AgeToast(o.value, times[0], times[0] - prev), times[0], times[1..])
  }

  predicate NonDecreasingFrom(prev: real, times: seq<real>)
  {
    (times != [] ==> prev <= times[0]) &&
    forall k :: 0 <= k < |times| - 1 ==> times[k] <= times[k + 1]
  }

  /** The fading budget a toast with default settings keeps: see ShownForDisplayTime and GoneAfterFade. */
  predicate OnSchedule(t: Toast, prev: real)
  {
    t.fadeSpeed == DefaultFadeSpeed && t.displayTime == DefaultDisplayTime &&
    (!t.isFading ==> t.alpha == 1.0 && prev <= t.startTime + DefaultDisplayTime) &&
    (t.isFading ==> t.alpha <= 1.0 - DefaultFadeSpeed * (prev - (t.startTime + DefaultDisplayTime)))
  }

  /** Frames up to the display time leave a new toast shown, at full opacity. */
  lemma {:induction false} ShownForDisplayTime(t: Toast, prev: real, times: seq<real>)
    requires !t.isFading && t.alpha == 1.0 && t.displayTime == DefaultDisplayTime
    requires NonDecreasingFrom(prev, times)
    requires times != [] ==> times[|times| - 1] <= t.startTime + DefaultDisplayTime
    ensures AgeThrough(Some(t), prev, times) == Some(t)
    decreases |times|
  {
    if times != [] {
      assert times[0] <= times[|times| - 1] by { NonDecreasingLast(prev, times); }
      ShownForDisplayTime(t, times[0], times[1..]);
    }
  }

  lemma {:induction false} NonDecreasingLast(prev: real, times: seq<real>)
    requires NonDecreasingFrom(prev, times) && times != []
    ensures prev <= times[0] <= times[|times| - 1]
    decreases |times|
  {
    if |times| > 1 {
      NonDecreasingLast(times[0], times[1..]);
    }
  }

  /**
   * A toast shown at time s with the default settings is gone by the first
   * frame at or after s + 3 + 4/3: the display time, then the time it takes
   * to fade from full opacity at 0.75 per second.
   */
  lemma GoneAfterFade(message: string, level: ToastLevel, s: real, times: seq<real>)
    requires NonDecreasingFrom(s, times)
    requires times != [] && times[|times| - 1] >= s + DefaultDisplayTime + 4.0 / 3.0
    ensures AgeThrough(Some(NewToast(message, level, s)), s, times).None?
  {
    FadeBudget(Some(NewToast(message, level, s)), s, times);
  }

  lemma {:induction false} FadeBudget(o: Option<Toast>, prev: real, times: seq<real>)
    requires o.Some? ==> OnSchedule(o.value, prev)
    requires NonDecreasingFrom(prev, times)
    requires times != [] && o.Some? ==> times[|times| - 1] >= o.value.startTime + DefaultDisplayTime + 4.0 / 3.0
    requires times == [] ==> o.None?
    ensures AgeThrough(o, prev, times).None?
    decreases |times|
  {
    if o.Some? {
      var t := o.value;
      var now := times[0];
      var next := AgeToast(t, now, now - prev);
      if next.Some? {
        var u := next.value;
        assert OnSchedule(u, now);
        if |times| == 1 {
          assert false;
        }
        NonDecreasingLast(prev, times);
        FadeBudget(next, now, times[1..]);
      }
    }
  }
}
