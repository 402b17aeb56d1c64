/**
 * The segmentation losses: Dice over exact reals (smoothing 1), BCE with the
 * per-element cross-entropy left abstract, their sum, and the weighted
 * accumulation of the multi-term cosine loss with each term left abstract.
 * Float rounding is not modelled; a division by zero, which floats turn into
 * inf or nan, is the `NonFinite` value.
 */
module Loss {
  import opened Wrappers

  /** A tensor: its leading (batch) size and its elements in row-major order. */
  datatype Tensor = Tensor(batch: nat, data: seq<real>)

  /** What a model returns: one tensor, or a tuple whose first element is the
      prediction. */
  datatype Prediction = Plain(t: Tensor) | Tuple(items: seq<Tensor>)

  datatype LossError =
    | IndexError      // `pred[0]` of an empty tuple, or a list index out of range
    | ViewError       // `view(size, -1)` impossible
    | ShapeError      // shapes that neither match nor broadcast
    | RangeError      // a BCE input element outside [0, 1]

  datatype Value = Finite(v: real) | NonFinite

  /** `if isinstance(pred, tuple): pred = pred[0]`. */
  function Unwrap(pred: Prediction): Result<Tensor, LossError> {
    match pred
    case Plain(t) => Success(t)
    case Tuple(items) => if items == [] then Failure(IndexError) else Success(items[0])
  }

  function Sum(s: seq<real>): real {
    if s == [] then 0.0 else s[0] + Sum(s[1..])
  }

  function Concat(rows: seq<seq<real>>): seq<real> {
    if rows == [] then [] else rows[0] + Concat(rows[1..])
  }

  /** `n * w`, written as repeated addition so that the row-by-row proofs
      below stay linear. */
  function Times(n: nat, w: nat): nat {
    if n == 0 then 0 else w + Times(n - 1, w)
  }

  lemma {:induction false} TimesIsProduct(n: nat, w: nat)
    ensures Times(n, w) == n * w
    decreases n
  {
    if n > 0 {
      TimesIsProduct(n - 1, w);
      assert n * w == w + (n - 1) * w;
    }
  }

  /** `n` rows of `w` consecutive elements each. */
  function Chunks(data: seq<real>, w: nat, n: nat): (rows: seq<seq<real>>)
    requires |data| == Times(n, w)
    ensures |rows| == n
    ensures forall i :: 0 <= i < n ==> |rows[i]| == w
    decreases n
  {
    if n == 0 then [] else [data[..w]] + Chunks(data[w..], w, n - 1)
  }

  /** Chunking loses and reorders nothing: the rows concatenate back to the data. */
  lemma {:induction false} ChunksConcat(data: seq<real>, w: nat, n: nat)
    requires |data| == Times(n, w)
    ensures Concat(Chunks(data, w, n)) == data
    decreases n
  {
    if n > 0 {
      var tail := data[w..];
      ChunksConcat(tail, w, n - 1);
      var rows := Chunks(data, w, n);
      assert rows == [data[..w]] + Chunks(tail, w, n - 1);
      assert rows[1..] == Chunks(tail, w, n - 1);
      assert data[..w] + tail == data;
    }
  }

  /** `t.view(size, -1)`: fails for size 0 (the -1 is then ambiguous) or when
      the element count is not a multiple of size. */
  function View(t: Tensor, size: nat): (r: Result<seq<seq<real>>, LossError>)
    ensures r.Success? <==> size > 0 && |t.data| % size == 0
    ensures r.Success? ==> |r.value| == size && forall i :: 0 <= i < size ==> |r.value[i]| == |t.data| / size
  {
    if size == 0 || |t.data| % size != 0 then Failure(ViewError)
    else
      var w := |t.data| / size;
      ViewWidth(|t.data|, size);
      TimesIsProduct(size, w);
      Success(Chunks(t.data, w, size))
  }

  /** The rows of one sample multiplied element-wise, broadcasting a row of
      width 1 against the other. */
  function RowProduct(p: seq<real>, t: seq<real>): (r: Option<seq<real>>)
    ensures r.Some? <==> |p| == |t| || |p| == 1 || |t| == 1
    ensures r.Some? ==> |r.value| == (if |p| == 1 then |t| else |p|)
    ensures r.Some? ==> forall i :: 0 <= i < |r.value| ==>
      r.value[i] == p[if |p| == 1 then 0 else i] * t[if |t| == 1 then 0 else i]
  {
    if |p| == |t| then Some(Mul(p, t))
    else if |p| == 1 then Some(seq(|t|, i requires 0 <= i < |t| => p[0] * t[i]))
    else if |t| == 1 then Some(seq(|p|, i requires 0 <= i < |p| => p[i] * t[0]))
    else None
  }

  function Mul(p: seq<real>, t: seq<real>): (m: seq<real>)
    requires |p| == |t|
    ensures |m| == |p| && forall i :: 0 <= i < |p| ==> m[i] == p[i] * t[i]
  {
    seq(|p|, i requires 0 <= i < |p| => p[i] * t[i])
  }

  /** Per-sample Dice score (2*sum(p*t) + 1) / (sum(p) + sum(t) + 1). */
  function RowScore(p: seq<real>, t: seq<real>, product: seq<real>): Value {
    var denominator := Sum(p) + Sum(t) + 1.0;
    if denominator == 0.0 then NonFinite else Finite((2.0 * Sum(product) + 1.0) / denominator)
  }

  function Scores(pf: seq<seq<real>>, tf: seq<seq<real>>): (r: Option<seq<Value>>)
    requires |pf| == |tf|
    ensures r.Some? ==> |r.value| == |pf|
  {
    if pf == [] then Some([])
    else match RowProduct(pf[0], tf[0])
      case None => None
      case Some(product) =>
        match Scores(pf[1..], tf[1..])
        case None => None
        case Some(rest) => Some([RowScore(pf[0], tf[0], product)] + rest)
  }

  function SumValues(vs: seq<Value>): Value {
    if vs == [] then Finite(0.0)
    else match (vs[0], SumValues(vs[1..]))
      case (Finite(x), Finite(y)) => Finite(x + y)
      case _ => NonFinite
  }

  /** `DiceLoss.forward`: both operands are viewed with the TARGET's batch size. */
  function DiceLoss(pred: Prediction, target: Tensor): Result<Value, LossError> {
    var p :- Unwrap(pred);
    var size := target.batch;
    var pf :- View(p, size);
    var tf :- View(target, size);
    var scores :- if Scores(pf, tf).Some? then Success(Scores(pf, tf).value) else Failure(ShapeError);
    match SumValues(scores)
    case NonFinite => Success(NonFinite)
    case Finite(total) => Success(Finite(1.0 - total / size as real))
  }

  /** `BCELoss.forward`: each operand viewed with its own batch size, then the
      abstract `bce` on operands of equal shape. */
  function BceLoss(pred: Prediction, target: Tensor, bce: (seq<seq<real>>, seq<seq<real>>) -> real): (r: Result<real, LossError>)
    ensures r.Success? ==>
      && Unwrap(pred).Success?
      && InUnit(Unwrap(pred).value.data)
      && View(Unwrap(pred).value, Unwrap(pred).value.batch).Success?
      && View(target, target.batch).Success?
    ensures r.Success? ==> r.value == bce(View(Unwrap(pred).value, Unwrap(pred).value.batch).value, View(target, target.batch).value)
    ensures Unwrap(pred).Success? && View(Unwrap(pred).value, Unwrap(pred).value.batch).Success? && View(target, target.batch).Success? ==>
      var pf := View(Unwrap(pred).value, Unwrap(pred).value.batch).value;
      var tf := View(target, target.batch).value;
      && (r == Failure(ShapeError) <==> |pf| != |tf| || |pf[0]| != |tf[0]|)
      && (r == Failure(RangeError) <==> |pf| == |tf| && |pf[0]| == |tf[0]| && !InUnit(Unwrap(pred).value.data))
  {
    var p :- Unwrap(pred);
    var pf :- View(p, p.batch);
    var tf :- View(target, target.batch);
    if |pf| != |tf| || |pf[0]| != |tf[0]| then Failure(ShapeError)
    else if !InUnit(p.data) then Failure(RangeError)
    else Success(bce(pf, tf))
  }

  /** `BceDiceLoss.forward`: BCE is evaluated first, then Dice, and the two
      are added with equal weight. */
  function BceDiceLoss(pred: Prediction, target: Tensor, bce: (seq<seq<real>>, seq<seq<real>>) -> real): (r: Result<Value, LossError>)
    ensures r.Success? <==> BceLoss(pred, target, bce).Success? && DiceLoss(pred, target).Success?
    ensures BceLoss(pred, target, bce).Failure? ==> r.Failure? && r.error == BceLoss(pred, target, bce).error
    ensures BceLoss(pred, target, bce).Success? && DiceLoss(pred, target).Failure? ==> r == Failure(DiceLoss(pred, target).error)
    ensures r.Success? && DiceLoss(pred, target).value.Finite? ==>
      r.value == Finite(DiceLoss(pred, target).value.v + BceLoss(pred, target, bce).value)
    ensures r.Success? && DiceLoss(pred, target).value.NonFinite? ==> r.value == NonFinite
  {
    var b :- BceLoss(pred, target, bce);
    var d :- DiceLoss(pred, target);
    match d
    case Finite(x) => Success(Finite(x + b))
    case NonFinite => Success(NonFinite)
  }

  /** A tuple prediction is scored by its first element alone, by every loss;
      an empty tuple is an IndexError. */
  lemma TupleUsesFirstElement(first: Tensor, rest: seq<Tensor>, target: Tensor, bce: (seq<seq<real>>, seq<seq<real>>) -> real)
    ensures DiceLoss(Tuple([first] + rest), target) == DiceLoss(Plain(first), target)
    ensures BceLoss(Tuple([first] + rest), target, bce) == BceLoss(Plain(first), target, bce)
    ensures BceDiceLoss(Tuple([first] + rest), target, bce) == BceDiceLoss(Plain(first), target, bce)
    ensures BceLoss(Tuple([]), target, bce) == Failure(IndexError)
    ensures BceDiceLoss(Tuple([]), target, bce) == Failure(IndexError)
    ensures DiceLoss(Tuple([]), target) == Failure(IndexError)
  {
  }

  /** The prediction's own batch size plays no part in the Dice loss. */
  lemma DiceUsesTargetBatch(batch: nat, data: seq<real>, target: Tensor)
    ensures DiceLoss(Plain(Tensor(batch, data)), target) == DiceLoss(Plain(Tensor(target.batch, data)), target)
  {
  }

  // ---------------------------------------------------------------------
  // Properties of the Dice score.

  predicate NonNegative(s: seq<real>) {
    forall i :: 0 <= i < |s| ==> 0.0 <= s[i]
  }

  predicate InUnit(s: seq<real>) {
    forall i :: 0 <= i < |s| ==> 0.0 <= s[i] <= 1.0
  }

  lemma {:induction false} SumNonNegative(s: seq<real>)
    requires NonNegative(s)
    ensures Sum(s) >= 0.0
    decreases |s|
  {
    if s != [] {
      SumNonNegative(s[1..]);
    }
  }

  lemma MulTail(p: seq<real>, t: seq<real>)
    requires |p| == |t| && p != []
    ensures Mul(p, t)[1..] == Mul(p[1..], t[1..])
  {
    forall i | 0 <= i < |p| - 1 ensures Mul(p, t)[1..][i] == Mul(p[1..], t[1..])[i] {
      assert Mul(p, t)[1..][i] == Mul(p, t)[i + 1];
    }
  }

  /** For entries in [0, 1], 0 <= 2*sum(p*t) <= sum(p) + sum(t). */
  lemma {:induction false} OverlapBound(p: seq<real>, t: seq<real>)
    requires |p| == |t| && InUnit(p) && InUnit(t)
    ensures 0.0 <= 2.0 * Sum(Mul(p, t)) <= Sum(p) + Sum(t) && 0.0 <= Sum(p) && 0.0 <= Sum(t)
    decreases |p|
  {
    if p != [] {
      var p', t' := p[1..], t[1..];
      assert InUnit(p') && InUnit(t');
      OverlapBound(p', t');
      MulTail(p, t);
      var a, b := p[0], t[0];
      ProductBelowFactors(a, b);
      var x := a * b;
      assert Sum(Mul(p, t)) == x + Sum(Mul(p', t'));
      assert Sum(p) == p[0] + Sum(p') && Sum(t) == t[0] + Sum(t');
      assert 0.0 <= x <= a && x <= b;
    }
  }

  lemma ProductBelowFactors(x: real, y: real)
    requires 0.0 <= x <= 1.0 && 0.0 <= y <= 1.0
    ensures 0.0 <= x * y <= x && x * y <= y
  {
    assert x * (1.0 - y) >= 0.0;
    assert y * (1.0 - x) >= 0.0;
  }

  lemma QuotientInUnit(num: real, den: real)
    requires 0.0 < num <= den
    ensures 0.0 < num / den <= 1.0
  {
    assert num / den * den == num;
  }

  /** For entries in [0, 1] and rows of one width, each score lies in (0, 1]. */
  lemma RowScoreInUnit(p: seq<real>, t: seq<real>)
    requires |p| == |t| && InUnit(p) && InUnit(t)
    ensures RowScore(p, t, RowProduct(p, t).value).Finite?
    ensures 0.0 < RowScore(p, t, RowProduct(p, t).value).v <= 1.0
  {
    OverlapBound(p, t);
    assert RowProduct(p, t).value == Mul(p, t);
    QuotientInUnit(2.0 * Sum(Mul(p, t)) + 1.0, Sum(p) + Sum(t) + 1.0);
  }

  /** With non-negative entries the denominator is at least 1: never a
      division by zero, whatever the widths. */
  lemma RowScoreFinite(p: seq<real>, t: seq<real>, product: seq<real>)
    requires NonNegative(p) && NonNegative(t)
    ensures RowScore(p, t, product).Finite?
  {
    SumNonNegative(p);
    SumNonNegative(t);
  }

  lemma {:induction false} ChunksPreserve(data: seq<real>, w: nat, n: nat, unit: bool)
    requires |data| == Times(n, w)
    requires if unit then InUnit(data) else NonNegative(data)
    ensures forall i :: 0 <= i < n ==> if unit then InUnit(Chunks(data, w, n)[i]) else NonNegative(Chunks(data, w, n)[i])
    decreases n
  {
    if n > 0 {
      ChunksPreserve(data[w..], w, n - 1, unit);
      assert Chunks(data, w, n)[1..] == Chunks(data[w..], w, n - 1);
    }
  }

  /** Scores of rows with entries in [0, 1] and equal widths are all
      finite, in (0, 1], and their sum lies in (0, n] for n > 0 rows. */
  lemma {:induction false} ScoresInUnit(pf: seq<seq<real>>, tf: seq<seq<real>>)
    requires |pf| == |tf|
    requires forall i :: 0 <= i < |pf| ==> |pf[i]| == |tf[i]| && InUnit(pf[i]) && InUnit(tf[i])
    ensures Scores(pf, tf).Some?
    ensures SumValues(Scores(pf, tf).value).Finite?
    ensures 0.0 <= SumValues(Scores(pf, tf).value).v <= |pf| as real
    ensures |pf| > 0 ==> 0.0 < SumValues(Scores(pf, tf).value).v
    decreases |pf|
  {
    if pf != [] {
      ScoresInUnit(pf[1..], tf[1..]);
      RowScoreInUnit(pf[0], tf[0]);
    }
  }

  /** Non-negative rows never produce a non-finite score. */
  lemma {:induction false} ScoresFinite(pf: seq<seq<real>>, tf: seq<seq<real>>)
    requires |pf| == |tf| && Scores(pf, tf).Some?
    requires forall i :: 0 <= i < |pf| ==> NonNegative(pf[i]) && NonNegative(tf[i])
    ensures SumValues(Scores(pf, tf).value).Finite?
    decreases |pf|
  {
    if pf != [] {
      ScoresFinite(pf[1..], tf[1..]);
      RowScoreFinite(pf[0], tf[0], RowProduct(pf[0], tf[0]).value);
    }
  }

  /** Non-negative inputs always give a finite Dice loss when it is defined. */
  lemma DiceLossFinite(pred: Tensor, target: Tensor)
    requires NonNegative(pred.data) && NonNegative(target.data)
    requires DiceLoss(Plain(pred), target).Success?
    ensures DiceLoss(Plain(pred), target).value.Finite?
  {
    var size := target.batch;
    ViewWidth(|pred.data|, size);
    ViewWidth(|target.data|, size);
    TimesIsProduct(size, |pred.data| / size);
    TimesIsProduct(size, |target.data| / size);
    ChunksPreserve(pred.data, |pred.data| / size, size, false);
    ChunksPreserve(target.data, |target.data| / size, size, false);
    ScoresFinite(View(pred, size).value, View(target, size).value);
  }

  /** For prediction and target of the same element count with entries in
      [0, 1], a viewable pair has Dice loss in [0, 1). */
  lemma DiceLossInUnit(pred: Tensor, target: Tensor)
    requires InUnit(pred.data) && InUnit(target.data) && |pred.data| == |target.data|
    requires target.batch > 0 && |target.data| % target.batch == 0
    ensures DiceLoss(Plain(pred), target).Success?
    ensures DiceLoss(Plain(pred), target).value.Finite?
    ensures 0.0 <= DiceLoss(Plain(pred), target).value.v < 1.0
  {
    var size := target.batch;
    var w := |target.data| / size;
    ViewWidth(|target.data|, size);
    TimesIsProduct(size, w);
    var pf, tf := Chunks(pred.data, w, size), Chunks(target.data, w, size);
    assert View(pred, size) == Success(pf);
    assert View(target, size) == Success(tf);
    ChunksPreserve(pred.data, w, size, true);
    ChunksPreserve(target.data, w, size, true);
    ScoresInUnit(pf, tf);
    var total := SumValues(Scores(pf, tf).value).v;
    DiceLossOfRows(pred, target, pf, tf, total);
    QuotientInUnit(total, size as real);
  }

  function Constant(c: real, n: nat): (s: seq<real>)
    ensures |s| == n && forall i :: 0 <= i < n ==> s[i] == c
  {
    seq(n, _ => c)
  }

  /** A tensor of `n` samples of `w` elements each, all equal to `c`. */
  function Uniform(c: real, n: nat, w: nat): Tensor {
    Tensor(n, Constant(c, Times(n, w)))
  }

  lemma {:induction false} SumConstant(c: real, n: nat)
    ensures Sum(Constant(c, n)) == n as real * c
    decreases n
  {
    if n > 0 {
      SumConstant(c, n - 1);
      assert Constant(c, n)[1..] == Constant(c, n - 1);
    }
  }

  lemma {:induction false} ChunksConstant(c: real, w: nat, n: nat)
    ensures forall i :: 0 <= i < n ==> Chunks(Constant(c, Times(n, w)), w, n)[i] == Constant(c, w)
    decreases n
  {
    if n > 0 {
      ChunksConstant(c, w, n - 1);
      assert Constant(c, Times(n, w))[w..] == Constant(c, Times(n - 1, w));
      assert Constant(c, Times(n, w))[..w] == Constant(c, w);
    }
  }

  lemma {:induction false} SumOfEqualScores(pf: seq<seq<real>>, tf: seq<seq<real>>, score: real)
    requires |pf| == |tf|
    requires forall i :: 0 <= i < |pf| ==> RowProduct(pf[i], tf[i]).Some? && RowScore(pf[i], tf[i], RowProduct(pf[i], tf[i]).value) == Finite(score)
    ensures Scores(pf, tf).Some? && SumValues(Scores(pf, tf).value) == Finite(|pf| as real * score)
    decreases |pf|
  {
    if pf != [] {
      SumOfEqualScores(pf[1..], tf[1..], score);
    }
  }

  lemma AtLeastOnce(n: nat, k: int)
    requires k >= 1
    ensures n * k >= n
  {
    assert n * k == n + n * (k - 1);
    assert n * (k - 1) >= 0;
  }

  lemma MulDivides(n: nat, w: nat)
    requires n > 0
    ensures (n * w) % n == 0 && (n * w) / n == w
  {
    var q, r := (n * w) / n, (n * w) % n;
    assert n * w == n * q + r && 0 <= r < n;
    assert n * (w - q) == r;
    if w - q >= 1 {
      AtLeastOnce(n, w - q);
    } else if q - w >= 1 {
      AtLeastOnce(n, q - w);
    }
  }

  /** A multiple of `size` is `size` rows of the quotient's width. */
  lemma ViewWidth(x: nat, size: nat)
    requires size > 0 && x % size == 0
    ensures x == size * (x / size)
  {
  }

  /** A tensor of `n * w` elements views as its `n` rows of width `w`. */
  lemma ViewRows(t: Tensor, n: nat, w: nat)
    requires n > 0 && |t.data| == Times(n, w)
    ensures View(t, n) == Success(Chunks(t.data, w, n))
  {
    MulDivides(n, w);
    TimesIsProduct(n, w);
  }

  /** The Dice loss of a pair whose views and scores are known. */
  lemma DiceLossOfRows(pred: Tensor, target: Tensor, pf: seq<seq<real>>, tf: seq<seq<real>>, total: real)
    requires View(pred, target.batch) == Success(pf) && View(target, target.batch) == Success(tf)
    requires |pf| == |tf| && Scores(pf, tf).Some? && SumValues(Scores(pf, tf).value) == Finite(total)
    ensures DiceLoss(Plain(pred), target) == Success(Finite(1.0 - total / target.batch as real))
  {
  }

  lemma CancelFactor(n: real, s: real)
    requires n != 0.0
    ensures (n * s) / n == s
  {
  }

  /** `n` uniform rows that each score `s` sum to `n * s`. */
  lemma ConstantScores(n: nat, w: nat, c: real, d: real, s: real)
    requires RowScore(Constant(c, w), Constant(d, w), Mul(Constant(c, w), Constant(d, w))) == Finite(s)
    ensures var pf, tf := Chunks(Constant(c, Times(n, w)), w, n), Chunks(Constant(d, Times(n, w)), w, n);
      Scores(pf, tf).Some? && SumValues(Scores(pf, tf).value) == Finite(n as real * s)
  {
    ChunksConstant(c, w, n);
    ChunksConstant(d, w, n);
    var pf, tf := Chunks(Constant(c, Times(n, w)), w, n), Chunks(Constant(d, Times(n, w)), w, n);
    forall i | 0 <= i < n
      ensures RowProduct(pf[i], tf[i]).Some? && RowScore(pf[i], tf[i], RowProduct(pf[i], tf[i]).value) == Finite(s)
    {
      assert pf[i] == Constant(c, w) && tf[i] == Constant(d, w);
    }
    SumOfEqualScores(pf, tf, s);
  }

  /** Uniform tensors whose sample rows score `s` have Dice loss 1 - s. */
  lemma DiceOfConstants(n: nat, w: nat, c: real, d: real, s: real)
    requires n > 0
    requires RowScore(Constant(c, w), Constant(d, w), Mul(Constant(c, w), Constant(d, w))) == Finite(s)
    ensures DiceLoss(Plain(Uniform(c, n, w)), Uniform(d, n, w)) == Success(Finite(1.0 - s))
  {
    var pred, target := Uniform(c, n, w), Uniform(d, n, w);
    var total := n as real * s;
    CancelFactor(n as real, s);
    assert 1.0 - total / n as real == 1.0 - s;
    ViewRows(pred, n, w);
    ViewRows(target, n, w);
    ConstantScores(n, w, c, d, s);
    DiceLossOfRows(pred, target, Chunks(pred.data, w, n), Chunks(target.data, w, n), total);
  }

  /** A prediction identical to an all-ones target scores 1 per sample: loss 0. */
  lemma DiceOfIdenticalOnes(n: nat, w: nat)
    requires n > 0
    ensures DiceLoss(Plain(Uniform(1.0, n, w)), Uniform(1.0, n, w)) == Success(Finite(0.0))
  {
    var ones := Constant(1.0, w);
    assert Mul(ones, ones) == ones;
    SumConstant(1.0, w);
    var total := 2.0 * w as real + 1.0;
    assert Sum(ones) + Sum(ones) + 1.0 == total && 2.0 * Sum(ones) + 1.0 == total;
    assert total / total == 1.0;
    assert RowScore(ones, ones, ones) == Finite(1.0);
    DiceOfConstants(n, w, 1.0, 1.0, 1.0);
  }

  /** An all-ones prediction against an all-zeros target scores exactly
      1/(w+1) per sample of w elements, so the loss is 1 - 1/(w+1). */
  lemma DiceOfDisjoint(n: nat, w: nat)
    requires n > 0
    ensures DiceLoss(Plain(Uniform(1.0, n, w)), Uniform(0.0, n, w))
      == Success(Finite(1.0 - 1.0 / (w as real + 1.0)))
  {
    var ones, zeros := Constant(1.0, w), Constant(0.0, w);
    assert Mul(ones, zeros) == zeros;
    SumConstant(1.0, w);
    SumConstant(0.0, w);
    assert RowScore(ones, zeros, zeros) == Finite(1.0 / (w as real + 1.0));
    DiceOfConstants(n, w, 1.0, 0.0, 1.0 / (w as real + 1.0));
  }

  /** With a prediction row of width 1 broadcast against a target row of
      width 2, the per-sample score is 5/4 and the loss is negative: the
      bounds of `DiceLossInUnit` need rows of equal width. */
  lemma {:induction false} BroadcastLossBelowZero()
    ensures DiceLoss(Plain(Tensor(1, [1.0])), Tensor(1, [1.0, 1.0])) == Success(Finite(-0.25))
  {
    var pf, tf := [[1.0]], [[1.0, 1.0]];
    var one, two := [1.0], [1.0, 1.0];
    assert one[..1] == one && one[1..] == [];
    assert two[..2] == two && two[2..] == [];
    assert Chunks(one, 1, 1) == [one] + Chunks([], 1, 0) == pf;
    assert Chunks(two, 2, 1) == [two] + Chunks([], 2, 0) == tf;
    assert View(Tensor(1, one), 1) == Success(pf);
    assert View(Tensor(1, two), 1) == Success(tf);
    var product := RowProduct(one, two).value;
    assert |product| == 2 && product[0] == 1.0 && product[1] == 1.0;
    assert product == two;
    assert Sum(two) == 2.0;
    assert RowScore(one, two, two) == Finite(1.25);
    assert pf[1..] == [] && tf[1..] == [];
    assert pf != [] && pf[0] == one && tf[0] == two;
    assert RowProduct(pf[0], tf[0]) == Some(two);
    assert RowScore(pf[0], tf[0], two) == Finite(1.25);
    assert Scores(pf[1..], tf[1..]) == Some([]);
    var scores: seq<Value> := [Finite(1.25)];
    assert scores + [] == scores;
    assert Scores(pf, tf) == Some(scores);
    assert SumValues([Finite(1.25)]) == Finite(1.25);
  }

  // ---------------------------------------------------------------------
  // The weighted multi-term cosine loss.

  /** sum of term(a[i], b[i]) * weight[i] for i < n. */
  function WeightedTerms<F>(weight: seq<real>, a: seq<F>, b: seq<F>, term: (F, F) -> real, n: nat): real
    requires n <= |a| && n <= |b| && n <= |weight|
  {
    if n == 0 then 0.0
    else WeightedTerms(weight, a, b, term, n - 1) + term(a[n - 1], b[n - 1]) * weight[n - 1]
  }

  /** `GlobalCosineLoss.forward` as a value: one weighted term per element of
      `a`; IndexError when `b` or `weight` is shorter than `a`. */
  function CosineLoss<F>(weight: seq<real>, a: seq<F>, b: seq<F>, term: (F, F) -> real): Result<real, LossError> {
    if |b| < |a| || |weight| < |a| then Failure(IndexError)
    else Success(WeightedTerms(weight, a, b, term, |a|))
  }

  /** The accumulation loop. `stopGrad` only decides whether `a[item]` is
      detached from the gradient graph; the value is the same either way.
      `term` stands for mean(1 - cosine_similarity) of the flattened pair. */
  method GlobalCosineForward<F>(weight: seq<real>, stopGrad: bool, a: seq<F>, b: seq<F>, term: (F, F) -> real)
    returns (r: Result<real, LossError>)
    ensures r == CosineLoss(weight, a, b, term)
  {
    var loss := 0.0;
    for item := 0 to |a|
      invariant item <= |b| && item <= |weight|
      invariant loss == WeightedTerms(weight, a, b, term, item)
    {
      if item >= |b| || item >= |weight| {
        return Failure(IndexError);
      }
      if stopGrad {
        loss := loss + term(a[item], b[item]) * weight[item];
      } else {
        loss := loss + term(a[item], b[item]) * weight[item];
      }
    }
    return Success(loss);
  }

  /** No feature maps: the loss is 0. */
  lemma CosineOfNothing<F>(weight: seq<real>, b: seq<F>, term: (F, F) -> real)
    ensures CosineLoss(weight, [], b, term) == Success(0.0)
  {
  }

  lemma {:induction false} WeightedTermsZero<F>(weight: seq<real>, a: seq<F>, term: (F, F) -> real, n: nat)
    requires n <= |a| && n <= |weight|
    requires forall i :: 0 <= i < n ==> term(a[i], a[i]) == 0.0
    ensures WeightedTerms(weight, a, a, term, n) == 0.0
    decreases n
  {
    if n > 0 {
      WeightedTermsZero(weight, a, term, n - 1);
    }
  }

  /** Identical feature maps, whose cosine term is 0, give loss 0 whatever the weights. */
  lemma CosineOfIdentical<F>(weight: seq<real>, a: seq<F>, term: (F, F) -> real)
    requires |weight| >= |a|
    requires forall i :: 0 <= i < |a| ==> term(a[i], a[i]) == 0.0
    ensures CosineLoss(weight, a, a, term) == Success(0.0)
  {
    WeightedTermsZero(weight, a, term, |a|);
  }

  /** With terms in [0, 2] (1 - cosine similarity) and non-negative weights,
      the loss lies between 0 and twice the sum of the weights used. */
  lemma {:induction false} WeightedTermsBounds<F>(weight: seq<real>, a: seq<F>, b: seq<F>, term: (F, F) -> real, n: nat)
    requires n <= |a| && n <= |b| && n <= |weight|
    requires forall i :: 0 <= i < n ==> 0.0 <= term(a[i], b[i]) <= 2.0 && 0.0 <= weight[i]
    ensures 0.0 <= WeightedTerms(weight, a, b, term, n) <= 2.0 * Sum(weight[..n])
    decreases n
  {
    if n > 0 {
      WeightedTermsBounds(weight, a, b, term, n - 1);
      SumSnoc(weight[..n - 1], weight[n - 1]);
      assert weight[..n] == weight[..n - 1] + [weight[n - 1]];
      var t := term(a[n - 1], b[n - 1]);
      assert (2.0 - t) * weight[n - 1] >= 0.0;
      assert t * weight[n - 1] >= 0.0;
    }
  }

  lemma {:induction false} SumSnoc(s: seq<real>, x: real)
    ensures Sum(s + [x]) == Sum(s) + x
    decreases |s|
  {
    if s != [] {
      SumSnoc(s[1..], x);
      assert (s + [x])[1..] == s[1..] + [x];
    }
  }
}
