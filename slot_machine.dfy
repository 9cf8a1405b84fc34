/** The reel animation engine of the slot machine: five reels, each a strip
    of four symbols scrolled by a real-valued position; tweens that move a
    reel's position from its value at creation to a target over a duration,
    shaped by an easing curve; a per-frame update that derives each reel's
    motion blur and symbol offsets from its position and then advances every
    tween; and the spin controller, which refuses a second spin while one is
    running and otherwise starts one tween per reel, the last reel's tween
    carrying the callback that ends the spin.

    The wall clock (`Date.now`) and the random source (`Math.random`) are
    parameters: each tween's start time and each reel's random extra travel
    arrive as a `Draw`, and the texture picked for a symbol that wraps is given
    by a `pick` function. Positions, eased values and offsets are `real`. */
module Slots {
  import Sequences

  const ReelCount := 5
  const SymbolCount := 4
  const TextureCount := 4
  const SymbolSize: real := 150.0
  const BlurScale: real := 12.0
  const BackoutAmount: real := 0.5

  /** The index of one of the loaded symbol textures. */
  type TextureId = t: nat | t < TextureCount

  /** `Math.floor(Math.random() * 3)`: the random extra travel of one reel. */
  type Extra = e: int | 0 <= e <= 2

  /** A tween duration in milliseconds; every duration the engine creates is positive. */
  type Duration = d: int | d > 0 witness 1

  /** What the clock and the random source give for one reel when a spin starts. */
  datatype Draw = Draw(extra: Extra, now: int)

  function MinReal(a: real, b: real): real { if a <= b then a else b }

  // ---------------------------------------------------------------------------
  // Interpolation and easing

  /** Linear interpolation from `a1` (at 0) to `a2` (at 1). */
  function Lerp(a1: real, a2: real, t: real): (r: real)
    ensures t == 0.0 ==> r == a1
    ensures t == 1.0 ==> r == a2
    ensures r - a1 == (a2 - a1) * t
  {
    a1 * (1.0 - t) + a2 * t
  }

  /** Between the ends, interpolation stays between its end values. */
  lemma LerpBetween(a1: real, a2: real, t: real)
    requires 0.0 <= t <= 1.0 && a1 <= a2
    ensures a1 <= Lerp(a1, a2, t) <= a2
  {
    var d := a2 - a1;
    assert 0.0 <= d * t by {
      assert 0.0 <= d && 0.0 <= t;
    }
    assert d * t <= d by {
      assert 0.0 <= d * (1.0 - t);
    }
  }

  /** The back-out curve `(t - 1)^2 * ((amount + 1) * (t - 1) + amount) + 1`. */
  function BackoutAt(amount: real, t: real): real {
    (t - 1.0) * (t - 1.0) * ((amount + 1.0) * (t - 1.0) + amount) + 1.0
  }

  /** The easing function `backout(amount)` builds. */
  function Backout(amount: real): (ease: real -> real)
    ensures ease(0.0) == 0.0
    ensures ease(1.0) == 1.0
  {
    t => BackoutAt(amount, t)
  }

  /** For a non-negative amount the curve never goes below 0 on [0, 1], so a
      reel tweened forward never moves back past where its tween began. */
  lemma BackoutNonNegative(amount: real, t: real)
    requires 0.0 <= amount && 0.0 <= t <= 1.0
    ensures BackoutAt(amount, t) >= 0.0
  {
    var u := t - 1.0;
    var c := (amount + 1.0) * u + amount;
    var w := u * u;
    assert c == amount * t + u;
    assert amount * t >= 0.0;
    assert c >= -1.0;
    assert 0.0 <= w <= 1.0 by {
      assert -1.0 <= u <= 0.0;
      assert u * u <= (-u) * 1.0;
    }
    assert BackoutAt(amount, t) == w * c + 1.0;
    if c < 0.0 {
      ProductSign(1.0 - w, c);
      assert w * c >= c;
    } else {
      ProductSign(w, c);
    }
  }

  lemma ProductSign(a: real, b: real)
    requires 0.0 <= a
    ensures 0.0 <= b ==> 0.0 <= a * b
    ensures b <= 0.0 ==> a * b <= 0.0
  {
  }

  lemma StrictProductSign(a: real, b: real)
    requires 0.0 < a
    ensures 0.0 < b ==> 0.0 < a * b
    ensures b < 0.0 ==> a * b < 0.0
  {
  }

  /** The curve overshoots: part-way through it is above 1, and it comes back
      down to 1 at the end. A reel passes its target and settles back onto it,
      so its position does not only increase during a spin. */
  lemma BackoutOvershoots()
    ensures BackoutAt(BackoutAmount, 7.0 / 9.0) > 1.0
    ensures BackoutAt(BackoutAmount, 7.0 / 9.0) > BackoutAt(BackoutAmount, 1.0)
  {
  }

  /** `Math.min(1, (now - start) / time)`. Nothing clamps it from below: a
      clock reading before the start gives a negative phase. */
  function Phase(now: int, start: int, time: Duration): (p: real)
    ensures p <= 1.0
    ensures p == 1.0 <==> now - start >= time
    ensures now >= start ==> 0.0 <= p
    ensures now < start ==> p < 0.0
  {
    var q := (now - start) as real / time as real;
    assert q * time as real == (now - start) as real;
    MinReal(1.0, q)
  }

  // ---------------------------------------------------------------------------
  // Symbols

  /** JavaScript's `%` on numbers: the remainder of truncating division, with
      the sign of the dividend. */
  function Trunc(x: real): int {
    if x >= 0.0 then x.Floor else -((-x).Floor)
  }

  function JsRem(x: real, m: real): (r: real)
    requires m > 0.0
    ensures 0.0 <= x ==> 0.0 <= r < m
    ensures x < 0.0 ==> -m < r <= 0.0
    ensures x - r == Trunc(x / m) as real * m
  {
    TruncatedRemainderBounds(x, m);
    x - Trunc(x / m) as real * m
  }

  lemma TruncatedRemainderBounds(x: real, m: real)
    requires m > 0.0
    ensures 0.0 <= x ==> 0.0 <= x - Trunc(x / m) as real * m < m
    ensures x < 0.0 ==> -m < x - Trunc(x / m) as real * m <= 0.0
  {
    var q := x / m;
    if 0.0 <= x {
      FloorRemainder(x, m);
    } else {
      FloorRemainder(-x, m);
      assert -x / m == -q;
      assert q < 0.0;
      var g := (-q).Floor as real;
      assert Trunc(q) as real == -g;
      assert x - Trunc(q) as real * m == -((-x) - g * m);
    }
  }

  /** `x - floor(x / m) * m` lies in [0, m) for non-negative `x`. */
  lemma FloorRemainder(x: real, m: real)
    requires m > 0.0 && 0.0 <= x
    ensures 0.0 <= x / m
    ensures 0.0 < x ==> 0.0 < x / m
    ensures 0.0 <= x - (x / m).Floor as real * m < m
  {
    var q := x / m;
    assert m * q == x;
    StrictProductSign(m, q);
    var f := q.Floor as real;
    var d := q - f;
    assert x - f * m == d * m by {
      assert x == (f + d) * m;
    }
    FractionOf(d, m);
    assert x - f * m < m;
  }

  /** A fraction of a positive amount lies in [0, amount). */
  lemma FractionOf(d: real, m: real)
    requires 0.0 <= d < 1.0 && 0.0 < m
    ensures 0.0 <= d * m < m
  {
    ProductSign(d, m);
    StrictProductSign(m, 1.0 - d);
  }

  /** The vertical offset of symbol `j` of a reel at `position`:
      `((position + j) % symbols.length) * SYMBOL_SIZE - SYMBOL_SIZE`. */
  function SymbolOffset(position: real, j: nat): (y: real)
    ensures 0.0 <= position ==> -SymbolSize <= y < (SymbolCount - 1) as real * SymbolSize
  {
    JsRem(position + j as real, SymbolCount as real) * SymbolSize - SymbolSize
  }

  /** A symbol has wrapped round to the top when it was below the first cell
      and is now above the window. */
  predicate Wraps(previousY: real, y: real) {
    y < 0.0 && previousY > SymbolSize
  }

  /** A wrap puts the symbol above the window, from where the next frame
      cannot wrap it again: one texture swap per wrap. */
  lemma WrapNotRepeated(previousY: real, y: real, nextY: real)
    requires Wraps(previousY, y)
    ensures !Wraps(y, nextY)
  {
  }

  lemma {:induction false} FloorOfQuotient(k: nat, n: nat)
    requires n > 0
    ensures (k as real / n as real).Floor == k / n
  {
    var q, r := k / n, k % n;
    assert k == q * n + r;
    assert k as real / n as real == q as real + r as real / n as real;
    assert 0.0 <= r as real / n as real < 1.0;
  }

  /** At a whole-number position the offsets are whole cells. */
  lemma RestingOffset(p: nat, j: nat)
    ensures SymbolOffset(p as real, j) == ((p + j) % SymbolCount) as real * SymbolSize - SymbolSize
  {
    FloorOfQuotient(p + j, SymbolCount);
    var x := (p + j) as real;
    assert Trunc(x / SymbolCount as real) == (p + j) / SymbolCount;
    assert x - ((p + j) / SymbolCount) as real * SymbolCount as real == ((p + j) % SymbolCount) as real;
  }

  /** At a whole-number position the four symbols of a reel sit in four
      different cells. */
  lemma RestingSymbolsApart(p: nat, j1: nat, j2: nat)
    requires j1 < SymbolCount && j2 < SymbolCount && j1 != j2
    ensures SymbolOffset(p as real, j1) != SymbolOffset(p as real, j2)
  {
    RestingOffset(p, j1);
    RestingOffset(p, j2);
  }

  /** One symbol sprite: its vertical offset and its texture. */
  datatype Symbol = Symbol(y: real, texture: TextureId)

  /** A symbol after a frame at `position`: moved to its offset, and given the
      freshly picked texture if the move wrapped it round. */
  function RenderedSymbol(s: Symbol, position: real, j: nat, texture: TextureId): Symbol
  {
    var y := SymbolOffset(position, j);
    Symbol(y, if Wraps(s.y, y) then texture else s.texture)
  }

  /** A texture swap happens once per wrap: a symbol that wraps takes the
      picked texture and keeps it through the next frame, wherever the reel
      is then and whatever texture that frame would pick. */
  lemma SwapOncePerWrap(s: Symbol, p1: real, p2: real, j: nat, t1: TextureId, t2: TextureId)
    requires Wraps(s.y, RenderedSymbol(s, p1, j, t1).y)
    ensures RenderedSymbol(s, p1, j, t1).texture == t1
    ensures RenderedSymbol(RenderedSymbol(s, p1, j, t1), p2, j, t2).texture == t1
  {
    var r1 := RenderedSymbol(s, p1, j, t1);
    WrapNotRepeated(s.y, r1.y, RenderedSymbol(r1, p2, j, t2).y);
  }

  // ---------------------------------------------------------------------------
  // Reels

  /** The symbols of one reel: always four. */
  type Strip = s: seq<Symbol> | |s| == SymbolCount
    witness [Symbol(0.0, 0), Symbol(0.0, 0), Symbol(0.0, 0), Symbol(0.0, 0)]

  class Reel {
    var position: real
    var previousPosition: real
    var blurX: real
    var blurY: real
    var symbols: Strip

    /** Everything about the reel except its position. */
    ghost function Look(): (real, real, real, Strip)
      reads this
    {
      (previousPosition, blurX, blurY, symbols)
    }

    /** A reel at rest at position 0, without blur, symbol `j` one cell below symbol `j - 1`. */
    constructor (textures: nat -> TextureId)
      ensures position == 0.0 && previousPosition == 0.0 && blurX == 0.0 && blurY == 0.0
      ensures forall j :: 0 <= j < SymbolCount ==> symbols[j] == Symbol(j as real * SymbolSize, textures(j))
    {
      position := 0.0;
      previousPosition := 0.0;
      blurX := 0.0;
      blurY := 0.0;
      var built: seq<Symbol> := [];
      var j := 0;
      while j < SymbolCount
        invariant 0 <= j <= SymbolCount && |built| == j
        invariant forall k :: 0 <= k < j ==> built[k] == Symbol(k as real * SymbolSize, textures(k))
      {
        built := built + [Symbol(j as real * SymbolSize, textures(j))];
        j := j + 1;
      }
      symbols := built;
    }

    /** The reel part of a frame: the vertical blur is the distance moved since
        the previous frame times 12, the current position becomes the previous
        one, and every symbol moves to its offset, taking the picked texture
        when it wraps. The position itself is left alone. */
    method Render(pick: nat -> TextureId)
      modifies this`blurY, this`previousPosition, this`symbols
      ensures blurY == (position - old(previousPosition)) * BlurScale
      ensures previousPosition == position
      ensures forall j :: 0 <= j < SymbolCount ==> symbols[j] == RenderedSymbol(old(symbols[j]), position, j, pick(j))
    {
      blurY := (position - previousPosition) * 12.0;
      previousPosition := position;
      var j := 0;
      while j < |symbols|
        invariant 0 <= j <= |symbols| == SymbolCount
        invariant blurY == (position - old(previousPosition)) * BlurScale && previousPosition == position
        invariant forall k :: 0 <= k < j ==> symbols[k] == RenderedSymbol(old(symbols[k]), position, k, pick(k))
        invariant forall k :: j <= k < |symbols| ==> symbols[k] == old(symbols[k])
      {
        var s := symbols[j];
        var prevY := s.y;
        var y := JsRem(position + j as real, |symbols| as real) * SymbolSize - SymbolSize;
        if y < 0.0 && prevY > SymbolSize {
          s := Symbol(y, pick(j));
        } else {
          s := Symbol(y, s.texture);
        }
        symbols := symbols[j := s];
        j := j + 1;
      }
    }
  }

  // ---------------------------------------------------------------------------
  // Tweens

  /** Which callback a tween fires when it completes: none, or the slot
      machine's `reelsComplete`. */
  datatype Completion = NoCallback | ReelsComplete

  /** A tween of a reel's `position`. Its fields never change after creation. */
  class Tween {
    const reel: Reel
    const propertyBeginValue: real
    const target: real
    const easing: real -> real
    const time: Duration
    const complete: Completion
    const start: int

    constructor (reel: Reel, propertyBeginValue: real, target: real, easing: real -> real,
                 time: Duration, complete: Completion, start: int)
      ensures this.reel == reel && this.propertyBeginValue == propertyBeginValue
      ensures this.target == target && this.easing == easing && this.time == time
      ensures this.complete == complete && this.start == start
    {
      this.reel := reel;
      this.propertyBeginValue := propertyBeginValue;
      this.target := target;
      this.easing := easing;
      this.time := time;
      this.complete := complete;
      this.start := start;
    }
  }

  function TweenPhase(t: Tween, now: int): real {
    Phase(now, t.start, t.time)
  }

  /** The value a frame at `now` leaves in the tween's property: the eased
      interpolation, snapped exactly onto the target once the duration has
      elapsed. */
  function Written(t: Tween, now: int): (v: real)
    ensures now - t.start >= t.time ==> v == t.target
    ensures now - t.start < t.time ==> v == Lerp(t.propertyBeginValue, t.target, t.easing(TweenPhase(t, now)))
  {
    var phase := TweenPhase(t, now);
    if phase == 1.0 then t.target else Lerp(t.propertyBeginValue, t.target, t.easing(phase))
  }

  /** A back-out tween leaves its begin value at its start time and its exact
      target at and after its end. */
  lemma BackoutTweenEnds(t: Tween, now: int)
    requires t.easing == Backout(BackoutAmount)
    ensures Written(t, t.start) == t.propertyBeginValue
    ensures now >= t.start + t.time ==> Written(t, now) == t.target
  {
    assert TweenPhase(t, t.start) == 0.0;
  }

  /** The position a reel holds after one pass over the tweens `ts`: the value
      written by the last tween on that reel, or its `initial` position when no
      tween moves it. */
  function FinalPosition(ts: seq<Tween>, r: Reel, now: int, initial: real): real
  {
    if ts == [] then initial
    else if ts[|ts| - 1].reel == r then Written(ts[|ts| - 1], now)
    else FinalPosition(ts[..|ts| - 1], r, now, initial)
  }

  /** The last tween on a reel decides where the reel ends up in a frame. */
  lemma {:induction false} LastWriteWins(ts: seq<Tween>, r: Reel, now: int, initial: real, k: nat)
    requires k < |ts| && ts[k].reel == r
    requires forall m :: k < m < |ts| ==> ts[m].reel != r
    ensures FinalPosition(ts, r, now, initial) == Written(ts[k], now)
  {
    if k < |ts| - 1 {
      LastWriteWins(ts[..|ts| - 1], r, now, initial, k);
    }
  }

  /** A reel no tween moves keeps its position. */
  lemma {:induction false} UntweenedStays(ts: seq<Tween>, r: Reel, now: int, initial: real)
    requires forall m :: 0 <= m < |ts| ==> ts[m].reel != r
    ensures FinalPosition(ts, r, now, initial) == initial
  {
    if ts != [] {
      UntweenedStays(ts[..|ts| - 1], r, now, initial);
    }
  }

  /** Extending the pass by one tween changes only the reel that tween moves. */
  lemma FinalPositionStep(ts: seq<Tween>, k: nat, now: int)
    requires k < |ts|
    ensures forall r: Reel, initial: real ::
              FinalPosition(ts[..k + 1], r, now, initial) ==
              (if ts[k].reel == r then Written(ts[k], now) else FinalPosition(ts[..k], r, now, initial))
  {
    var p := ts[..k + 1];
    assert p[|p| - 1] == ts[k] && p[..|p| - 1] == ts[..k];
    forall r: Reel, initial: real
      ensures FinalPosition(p, r, now, initial) ==
              (if ts[k].reel == r then Written(ts[k], now) else FinalPosition(ts[..k], r, now, initial))
    {
    }
  }

  /** The tweens that reach phase 1 at `now`, in order. */
  function Finished(ts: seq<Tween>, now: int): seq<Tween>
  {
    if ts == [] then []
    else Finished(ts[..|ts| - 1], now) + (if TweenPhase(ts[|ts| - 1], now) == 1.0 then [ts[|ts| - 1]] else [])
  }

  /** Extending the pass by one tween collects it exactly when it is at phase 1. */
  lemma FinishedStep(ts: seq<Tween>, k: nat, now: int)
    requires k < |ts|
    ensures Finished(ts[..k + 1], now) ==
      Finished(ts[..k], now) + (if TweenPhase(ts[k], now) == 1.0 then [ts[k]] else [])
  {
    var p := ts[..k + 1];
    assert p[|p| - 1] == ts[k] && p[..|p| - 1] == ts[..k];
  }

  /** The tweens still short of phase 1 at `now`, in order. */
  function Unfinished(ts: seq<Tween>, now: int): seq<Tween>
  {
    if ts == [] then []
    else Unfinished(ts[..|ts| - 1], now) + (if TweenPhase(ts[|ts| - 1], now) == 1.0 then [] else [ts[|ts| - 1]])
  }

  /** The number of tweens that carry the `reelsComplete` callback. */
  function CompletionCount(ts: seq<Tween>): nat
  {
    if ts == [] then 0
    else CompletionCount(ts[..|ts| - 1]) + (if ts[|ts| - 1].complete == ReelsComplete then 1 else 0)
  }

  lemma {:induction false} CompletionCountAppend(a: seq<Tween>, b: seq<Tween>)
    ensures CompletionCount(a + b) == CompletionCount(a) + CompletionCount(b)
  {
    if b == [] {
      assert a + b == a;
    } else {
      var init := b[..|b| - 1];
      CompletionCountAppend(a, init);
      assert (a + b)[..|a + b| - 1] == a + init;
      assert (a + b)[|a + b| - 1] == b[|b| - 1];
    }
  }

  lemma {:induction false} FinishedMembers(ts: seq<Tween>, now: int)
    ensures forall t :: t in Finished(ts, now) <==> t in ts && TweenPhase(t, now) == 1.0
    ensures forall t :: t in Unfinished(ts, now) <==> t in ts && TweenPhase(t, now) != 1.0
  {
    if ts != [] {
      FinishedMembers(ts[..|ts| - 1], now);
      assert ts == ts[..|ts| - 1] + [ts[|ts| - 1]];
    }
  }

  /** Every tween either finishes or stays, never both, and the callbacks
      split the same way: a tween whose callback fired is not kept. */
  lemma {:induction false} FinishedSplit(ts: seq<Tween>, now: int)
    ensures |Finished(ts, now)| + |Unfinished(ts, now)| == |ts|
    ensures CompletionCount(Finished(ts, now)) + CompletionCount(Unfinished(ts, now)) == CompletionCount(ts)
  {
    if ts != [] {
      var init, last := ts[..|ts| - 1], ts[|ts| - 1];
      FinishedSplit(init, now);
      var f, u := Finished(init, now), Unfinished(init, now);
      if TweenPhase(last, now) == 1.0 {
        assert (f + [last])[..|f|] == f;
        assert Unfinished(ts, now) == u;
      } else {
        assert (u + [last])[..|u|] == u;
        assert Finished(ts, now) == f;
      }
    }
  }

  lemma {:induction false} FinishedDistinct(ts: seq<Tween>, now: int)
    requires Sequences.Distinct(ts)
    ensures Sequences.Distinct(Finished(ts, now))
  {
    if ts != [] {
      var init := ts[..|ts| - 1];
      assert Sequences.Distinct(init);
      FinishedDistinct(init, now);
      FinishedMembers(init, now);
      assert ts[|ts| - 1] !in init;
    }
  }

  /** Removing every tween of `gone`, where `gone` holds exactly the finished
      ones, keeps the unfinished tweens in their order. */
  lemma {:induction false} DropFinished(ts: seq<Tween>, gone: seq<Tween>, now: int)
    requires forall t :: t in ts ==> (t in gone <==> TweenPhase(t, now) == 1.0)
    ensures Sequences.Drop(ts, gone) == Unfinished(ts, now)
  {
    if ts != [] {
      DropFinished(ts[..|ts| - 1], gone, now);
    }
  }

  /** Removing tweens leaves only tweens of the same reels. */
  lemma {:induction false} DropKeepsReels(ts: seq<Tween>, gone: seq<Tween>, reels: seq<Reel>)
    requires forall k :: 0 <= k < |ts| ==> ts[k].reel in reels
    ensures forall k :: 0 <= k < |Sequences.Drop(ts, gone)| ==> Sequences.Drop(ts, gone)[k].reel in reels
  {
    if ts != [] {
      var init := ts[..|ts| - 1];
      DropKeepsReels(init, gone, reels);
      var d := Sequences.Drop(init, gone);
      assert Sequences.Drop(ts, gone) == d + (if ts[|ts| - 1] in gone then [] else [ts[|ts| - 1]]);
    }
  }

  /** What `update` collects is fit for its removal loop, and removing it
      leaves exactly the unfinished tweens. */
  lemma RemovingFinished(ts: seq<Tween>, now: int)
    requires Sequences.Distinct(ts)
    ensures Sequences.Distinct(Finished(ts, now))
    ensures forall k :: 0 <= k < |Finished(ts, now)| ==> Finished(ts, now)[k] in ts
    ensures Sequences.Drop(ts, Finished(ts, now)) == Unfinished(ts, now)
  {
    FinishedMembers(ts, now);
    FinishedDistinct(ts, now);
    DropFinished(ts, Finished(ts, now), now);
  }

  // ---------------------------------------------------------------------------
  // The spin controller

  /** Where reel `i` is sent by a spin: `position + 10 + i * 5 + extra`. */
  function SpinTarget(position: real, i: nat, extra: Extra): (target: real)
    ensures position + 10.0 + (5 * i) as real <= target <= position + 12.0 + (5 * i) as real
  {
    position + 10.0 + (i * 5) as real + extra as real
  }

  /** How long reel `i` spins: `2500 + i * 600 + extra * 600` milliseconds. */
  function SpinTime(i: nat, extra: Extra): (time: Duration)
    ensures 2500 + 600 * i <= time <= 3700 + 600 * i
  {
    2500 + i * 600 + extra * 600
  }

  /** Reel `j`'s tween lasts at least as long as reel `i`'s whatever the two
      random draws, exactly when `j` is two or more places after `i`. So the
      last reel (index 4) is sure to outlast reels 0 to 2 only: reel 3's tween
      can end after it. */
  lemma OutlastsWhateverTheDraw(i: nat, j: nat)
    ensures (forall e: Extra, e': Extra :: SpinTime(i, e) <= SpinTime(j, e')) <==> i + 2 <= j
  {
    if (forall e: Extra, e': Extra :: SpinTime(i, e) <= SpinTime(j, e')) {
      assert SpinTime(i, 2) <= SpinTime(j, 0);
    }
  }

  /** A spin's tween for reel `i`: on the reel's position, from where the reel
      is now, to `SpinTarget`, over `SpinTime`, with the back-out easing, and
      with the completion callback exactly when `i` is the last reel. */
  ghost predicate IsSpinTween(t: Tween, r: Reel, i: nat, d: Draw)
    reads r
  {
    && t.reel == r
    && t.propertyBeginValue == r.position
    && t.target == SpinTarget(r.position, i, d.extra)
    && t.time == SpinTime(i, d.extra)
    && t.start == d.now
    && t.easing == Backout(BackoutAmount)
    && (t.complete == ReelsComplete <==> i == ReelCount - 1)
  }

  /** One tween's turn in a frame: the eased value is written into the
      reel's position, and at phase 1 the exact target overwrites it. Reports
      whether the tween has finished. */
  method Advance(tween: Tween, now: int) returns (finished: bool)
    modifies tween.reel`position
    ensures tween.reel.position == Written(tween, now)
    ensures finished <==> TweenPhase(tween, now) == 1.0
  {
    var phase := MinReal(1.0, (now - tween.start) as real / tween.time as real);
    tween.reel.position := Lerp(tween.propertyBeginValue, tween.target, tween.easing(phase));
    finished := phase == 1.0;
    if finished {
      tween.reel.position := tween.target;
    }
  }

  class SlotMachine {
    const reels: seq<Reel>
    var running: bool
    var tweening: seq<Tween>

    /** Five distinct reels; every tween is a distinct
        object moving one of them. */
    ghost predicate Valid()
      reads this
    {
      && |reels| == ReelCount
      && Sequences.Distinct(reels)
      && (forall k :: 0 <= k < |tweening| ==> tweening[k].reel in reels)
      && Sequences.Distinct(tweening)
    }

    /** `running` holds exactly while one pending tween carries the
        completion callback, and no more than one ever does. */
    ghost predicate SpinBookkeeping()
      reads this
    {
      CompletionCount(tweening) == if running then 1 else 0
    }

    /** The machine once its textures have loaded and its reels are built:
        five reels at rest, symbol `j` of reel `i` showing texture `pick(i, j)`. */
    constructor (pick: (nat, nat) -> TextureId)
      ensures Valid() && SpinBookkeeping()
      ensures !running && tweening == []
      ensures forall i :: 0 <= i < ReelCount ==> fresh(reels[i])
      ensures forall i :: 0 <= i < ReelCount ==>
        && reels[i].position == 0.0 && reels[i].previousPosition == 0.0
        && reels[i].blurX == 0.0 && reels[i].blurY == 0.0
        && forall j :: 0 <= j < SymbolCount ==> reels[i].symbols[j] == Symbol(j as real * SymbolSize, pick(i, j))
    {
      var built: seq<Reel> := [];
      var i := 0;
      while i < ReelCount
        invariant 0 <= i <= ReelCount && |built| == i
        invariant Sequences.Distinct(built)
        invariant forall k :: 0 <= k < i ==> fresh(built[k])
        invariant forall k :: 0 <= k < i ==>
          && built[k].position == 0.0 && built[k].previousPosition == 0.0
          && built[k].blurX == 0.0 && built[k].blurY == 0.0
          && forall j :: 0 <= j < SymbolCount ==> built[k].symbols[j] == Symbol(j as real * SymbolSize, pick(k, j))
      {
        var reel := new Reel(j => pick(i, j));
        built := built + [reel];
        i := i + 1;
      }
      reels := built;
      running := false;
      tweening := [];
    }

    /** The callback the last reel's tween fires: the spin is over. */
    method ReelsCompleted()
      modifies this`running
      ensures !running
    {
      running := false;
    }

    /** Appends a tween of `reel`'s position that starts from its current
        value; the tweens already there are untouched. */
    method TweenTo(reel: Reel, target: real, time: Duration, easing: real -> real,
                   complete: Completion, now: int) returns (tween: Tween)
      requires Valid() && reel in reels
      modifies this`tweening
      ensures Valid()
      ensures fresh(tween) && tweening == old(tweening) + [tween]
      ensures tween.reel == reel && tween.propertyBeginValue == reel.position
      ensures tween.target == target && tween.time == time && tween.easing == easing
      ensures tween.complete == complete && tween.start == now
    {
      tween := new Tween(reel, reel.position, target, easing, time, complete, now);
      tweening := tweening + [tween];
    }

    /** The Play button. While a spin runs it does nothing; otherwise it marks
        the machine running and appends one spin tween per reel, in reel order. */
    method StartPlay(draws: seq<Draw>)
      requires Valid() && |draws| == |reels|
      modifies this`running, this`tweening
      ensures Valid() && running
      ensures old(running) ==> tweening == old(tweening)
      ensures !old(running) ==> |tweening| == |old(tweening)| + |reels|
      ensures !old(running) ==> tweening[..|old(tweening)|] == old(tweening)
      ensures !old(running) ==> forall i :: 0 <= i < |reels| ==>
        fresh(tweening[|old(tweening)| + i]) && IsSpinTween(tweening[|old(tweening)| + i], reels[i], i, draws[i])
      ensures !old(running) ==> CompletionCount(tweening) == CompletionCount(old(tweening)) + 1
      ensures old(SpinBookkeeping()) ==> SpinBookkeeping()
    {
      if running {
        return;
      }
      running := true;
      ghost var spin: seq<Tween> := [];
      var i := 0;
      while i < |reels|
        invariant 0 <= i <= |reels| && |spin| == i
        invariant Valid() && running
        invariant tweening == old(tweening) + spin
        invariant forall k :: 0 <= k < i ==> fresh(spin[k]) && IsSpinTween(spin[k], reels[k], k, draws[k])
        invariant CompletionCount(spin) == if i == |reels| then 1 else 0
      {
        var r := reels[i];
        var extra: int := draws[i].extra;
        var target := r.position + 10.0 + (i * 5) as real + extra as real;
        var time: int := 2500 + i * 600 + extra * 600;
        var tween := TweenTo(r, target, time, Backout(BackoutAmount),
                             if i == |reels| - 1 then ReelsComplete else NoCallback, draws[i].now);
        assert (spin + [tween])[..i] == spin;
        assert tweening == old(tweening) + (spin + [tween]) by {
          assert (old(tweening) + spin) + [tween] == old(tweening) + (spin + [tween]);
        }
        spin := spin + [tween];
        i := i + 1;
      }
      CompletionCountAppend(old(tweening), spin);
    }

    /** The reel half of a frame, reel by reel. */
    method UpdateReels(pick: (nat, nat) -> TextureId)
      requires Valid()
      modifies reels
      ensures Valid()
      ensures forall i :: 0 <= i < |reels| ==>
        && reels[i].position == old(reels[i].position)
        && reels[i].previousPosition == old(reels[i].position)
        && reels[i].blurY == (old(reels[i].position) - old(reels[i].previousPosition)) * BlurScale
        && reels[i].blurX == old(reels[i].blurX)
        && forall j :: 0 <= j < SymbolCount ==>
             reels[i].symbols[j] == RenderedSymbol(old(reels[i].symbols[j]), old(reels[i].position), j, pick(i, j))
    {
      var i := 0;
      while i < |reels|
        invariant 0 <= i <= |reels|
        invariant forall k :: 0 <= k < |reels| ==>
          reels[k].position == old(reels[k].position) && reels[k].blurX == old(reels[k].blurX)
        invariant forall k :: 0 <= k < i ==>
          && reels[k].previousPosition == old(reels[k].position)
          && reels[k].blurY == (old(reels[k].position) - old(reels[k].previousPosition)) * BlurScale
          && forall j :: 0 <= j < SymbolCount ==>
               reels[k].symbols[j] == RenderedSymbol(old(reels[k].symbols[j]), old(reels[k].position), j, pick(k, j))
        invariant forall k :: i <= k < |reels| ==>
          && reels[k].previousPosition == old(reels[k].previousPosition)
          && reels[k].blurY == old(reels[k].blurY)
          && reels[k].symbols == old(reels[k].symbols)
      {
        reels[i].Render(j => pick(i, j));
        i := i + 1;
      }
    }

    /** The tween half of a frame: every tween writes its eased value, a tween
        at phase 1 snaps to its target and fires its callback, and the finished
        tweens are collected, in order, for removal. */
    method AdvanceTweens(now: int) returns (remove: seq<Tween>)
      requires Valid()
      modifies this`running, reels
      ensures Valid()
      ensures remove == Finished(tweening, now)
      ensures running == (old(running) && CompletionCount(remove) == 0)
      ensures forall i :: 0 <= i < |reels| ==>
        && reels[i].position == FinalPosition(tweening, reels[i], now, old(reels[i].position))
        && reels[i].previousPosition == old(reels[i].previousPosition)
        && reels[i].blurY == old(reels[i].blurY)
        && reels[i].blurX == old(reels[i].blurX)
        && reels[i].symbols == old(reels[i].symbols)
    {
      remove := [];
      var k := 0;
      while k < |tweening|
        invariant 0 <= k <= |tweening|
        invariant remove == Finished(tweening[..k], now)
        invariant running == (old(running) && CompletionCount(remove) == 0)
        invariant forall i :: 0 <= i < |reels| ==>
          reels[i].position == FinalPosition(tweening[..k], reels[i], now, old(reels[i].position))
        invariant forall i :: 0 <= i < |reels| ==> reels[i].Look() == old(reels[i].Look())
      {
        var tween := tweening[k];
        FinalPositionStep(tweening, k, now);
        FinishedStep(tweening, k, now);
        var finished := Advance(tween, now);
        if finished {
          if tween.complete == ReelsComplete {
            ReelsCompleted();
          }
          CompletionCountAppend(remove, [tween]);
          remove := remove + [tween];
        }
        k := k + 1;
      }
      assert tweening[..|tweening|] == tweening;
    }

    /** `splice(indexOf(tween), 1)` for every tween collected. */
    method RemoveTweens(remove: seq<Tween>)
      requires Valid() && Sequences.Distinct(remove)
      requires forall k :: 0 <= k < |remove| ==> remove[k] in tweening
      modifies this`tweening
      ensures Valid()
      ensures tweening == Sequences.Drop(old(tweening), remove)
    {
      ghost var t0 := tweening;
      tweening := Sequences.RemoveAll(tweening, remove);
      Sequences.DropDistinct(t0, remove);
      DropKeepsReels(t0, remove, reels);
    }

    /** One frame at clock reading `now`. Each reel's blur is 12 times the
        distance it moved since the last frame and its previous position
        catches up; then each reel ends at the value its last tween wrote;
        the finished tweens are gone and the others remain in order; the spin
        ends when the tween with the callback finishes. */
    method Update(now: int, pick: (nat, nat) -> TextureId)
      requires Valid()
      modifies this`running, this`tweening, reels
      ensures Valid()
      ensures forall i :: 0 <= i < |reels| ==>
        && reels[i].blurY == (old(reels[i].position) - old(reels[i].previousPosition)) * BlurScale
        && reels[i].previousPosition == old(reels[i].position)
        && reels[i].position == FinalPosition(old(tweening), reels[i], now, old(reels[i].position))
        && reels[i].blurX == old(reels[i].blurX)
        && forall j :: 0 <= j < SymbolCount ==>
             reels[i].symbols[j] == RenderedSymbol(old(reels[i].symbols[j]), old(reels[i].position), j, pick(i, j))
      ensures tweening == Unfinished(old(tweening), now)
      ensures running == (old(running) && CompletionCount(Finished(old(tweening), now)) == 0)
      ensures old(SpinBookkeeping()) ==> SpinBookkeeping()
    {
      UpdateReels(pick);
      var remove := AdvanceTweens(now);
      RemovingFinished(tweening, now);
      RemoveTweens(remove);
      FinishedSplit(old(tweening), now);
    }
  }

  /** The spin of the scenario below, on the tween list alone: all five
      tweens start at 0, reel 3 drew the largest extra and the others none.
      At 4900 ms only reel 3's tween is unfinished, and the finished ones
      include the tween with the completion callback. */
  lemma OnlyReelThreeLeft(spin: seq<Tween>)
    requires |spin| == ReelCount
    requires forall k :: 0 <= k < ReelCount ==>
      spin[k].start == 0 && spin[k].time == SpinTime(k, if k == 3 then 2 else 0)
    requires spin[4].complete == ReelsComplete
    ensures Unfinished(spin, 4900) == [spin[3]]
    ensures CompletionCount(Finished(spin, 4900)) >= 1
  {
    forall k | 0 <= k < ReelCount
      ensures TweenPhase(spin[k], 4900) == 1.0 <==> k != 3
    {
      assert spin[k].time == 2500 + k * 600 + (if k == 3 then 1200 else 0);
    }
    assert spin[..4][..3] == spin[..3] && spin[..3][..2] == spin[..2] && spin[..2][..1] == spin[..1];
    assert Unfinished(spin[..1], 4900) == [];
    assert Unfinished(spin[..2], 4900) == [];
    assert Unfinished(spin[..3], 4900) == [];
    assert Unfinished(spin[..4], 4900) == [spin[3]];
    var f := Finished(spin[..4], 4900);
    assert Finished(spin, 4900) == f + [spin[4]];
    assert (f + [spin[4]])[..|f|] == f;
  }

  /** A spin whose fourth reel draws the largest extra and whose last reel
      draws none: at 4900 ms the last reel's tween completes and the spin is
      over while reel 3 still has 600 ms to go; Play is accepted again and
      puts a second tween on reel 3. */
  method SpinEndsBeforeReelThreeStops(m: SlotMachine)
    requires m.Valid() && !m.running && m.tweening == []
    modifies m, m.reels
  {
    var draws := [Draw(0, 0), Draw(0, 0), Draw(0, 0), Draw(2, 0), Draw(0, 0)];
    m.StartPlay(draws);
    ghost var spin := m.tweening;
    assert forall k :: 0 <= k < ReelCount ==> IsSpinTween(spin[k], m.reels[k], k, draws[k]);
    OnlyReelThreeLeft(spin);
    m.Update(4900, (i, j) => 0);
    assert !m.running;
    assert m.tweening == [spin[3]] && spin[3].reel == m.reels[3];
    m.StartPlay(draws);
    assert m.running && |m.tweening| == 6;
    assert m.tweening[0].reel == m.tweening[4].reel == m.reels[3];
  }
}
