/** Shared vocabulary: error outcomes, extended reals, matrices laid out
    condition-major, and the parts of Python string semantics the data
    import relies on (str.split with an explicit separator, `in`, lower()). */
module Common {

  /** The Python exceptions the modelled code can raise or catch. */
  datatype Error =
    | IndexError        // list/array/tuple index out of range
    | KeyError          // missing dict key or DataFrame column
    | ValueError        // float() of a bad token, max() of nothing, explicit raise,
                        // operands whose shapes do not line up
    | NameError         // a local read before any assignment
    | AssertionError    // a failed `assert`
    | FloatingPointError // numpy overflow under seterr(over='raise'), odeint failure

  datatype Option<+T> = None | Some(value: T)

  datatype Result<+T> = Ok(value: T) | Err(error: Error)

  /** A floating value as the source sees it: a finite number, NaN, or -inf. */
  datatype Num = Fin(v: real) | NaN | NegInf

  // ---------------------------------------------------------------------
  // Transcendental functions are parameters, constrained only by laws.

  /** The laws of exp that the kinetics properties use. */
  ghost predicate ExpLaws(exp: real -> real)
  {
    exp(0.0) == 1.0 && forall x :: exp(x) > 0.0
  }

  /** exp is strictly increasing; only the non-negativity lemmas use this. */
  ghost predicate ExpMonotone(exp: real -> real)
  {
    forall x, y :: x < y ==> exp(x) < exp(y)
  }

  /** exp is convex: for x < y < z the chord over [x, y] is no steeper
      than the chord over [y, z] (both sides multiplied out). Only the
      non-negativity of the dead-apoptotic count uses this. */
  ghost predicate ExpConvex(exp: real -> real)
  {
    forall x, y, z :: x < y < z ==> ChordOrdered(exp, x, y, z)
  }

  ghost predicate ChordOrdered(exp: real -> real, x: real, y: real, z: real)
  {
    (exp(y) - exp(x)) * (z - y) <= (exp(z) - exp(y)) * (y - x)
  }

  /** The laws of pow(x, h) that the Bliss properties use. */
  ghost predicate PowLaws(pow: (real, real) -> real)
  {
    && (forall x, h :: x >= 0.0 ==> pow(x, h) >= 0.0)
    && (forall h :: h > 0.0 ==> pow(0.0, h) == 0.0)
    && (forall x, h :: x > 0.0 ==> pow(x, h) > 0.0)
  }

  /** pow(x, h) is non-decreasing in x >= 0 for a positive exponent; only
      the dose-monotonicity lemmas use this. */
  ghost predicate PowMonotone(pow: (real, real) -> real)
  {
    forall x, x', h :: 0.0 <= x <= x' && h > 0.0 ==> pow(x, h) <= pow(x', h)
  }

  // ---------------------------------------------------------------------
  // Matrices: seq of rows; rows are conditions, columns are time points.

  type Matrix = seq<seq<real>>

  predicate IsShape(m: Matrix, rows: nat, cols: nat)
  {
    |m| == rows && forall i :: 0 <= i < rows ==> |m[i]| == cols
  }

  /** Row-major flattening, numpy's reshape((-1,)) of a 2-D array and also
      np.array(list_of_columns).reshape((-1,)). */
  function Flatten(m: Matrix): (r: seq<real>)
    ensures |m| == 0 ==> r == []
  {
    if |m| == 0 then [] else m[0] + Flatten(m[1..])
  }

  lemma {:induction false} FlattenShape(m: Matrix, rows: nat, cols: nat)
    requires IsShape(m, rows, cols)
    ensures |Flatten(m)| == rows * cols
  {
    if rows > 0 {
      FlattenShape(m[1..], rows - 1, cols);
      assert rows * cols == cols + (rows - 1) * cols;
    }
  }

  /** Entry (i, j) of a rows x cols matrix sits at i * cols + j once flattened. */
  lemma {:induction false} FlattenAt(m: Matrix, rows: nat, cols: nat, i: nat, j: nat)
    requires IsShape(m, rows, cols) && i < rows && j < cols
    ensures i * cols + j < |Flatten(m)| && Flatten(m)[i * cols + j] == m[i][j]
  {
    FlattenShape(m, rows, cols);
    if i > 0 {
      FlattenAt(m[1..], rows - 1, cols, i - 1, j);
      assert i * cols + j == cols + ((i - 1) * cols + j);
    }
  }

  // ---------------------------------------------------------------------
  // Strings.

  predicate OccursAt(s: string, sub: string, i: nat)
  {
    i + |sub| <= |s| && s[i..i + |sub|] == sub
  }

  /** The leftmost occurrence of `sub` in `s` at or after `from`. */
  function Find(s: string, sub: string, from: nat): (r: Option<nat>)
    ensures r.Some? ==> from <= r.value && OccursAt(s, sub, r.value)
    ensures r.Some? ==> forall k :: from <= k < r.value ==> !OccursAt(s, sub, k)
    ensures r.None? ==> forall k :: from <= k ==> !OccursAt(s, sub, k)
    decreases |s| - from
  {
    if from + |sub| > |s| then None
    else if s[from..from + |sub|] == sub then Some(from)
    else Find(s, sub, from + 1)
  }

  /** Python `sub in s`. */
  predicate Contains(s: string, sub: string)
  {
    Find(s, sub, 0).Some?
  }

  lemma ContainsIff(s: string, sub: string)
    ensures Contains(s, sub) <==> exists k: nat :: OccursAt(s, sub, k)
  {
  }

  /** str.lower() restricted to ASCII letters. */
  function Lower(s: string): (r: string)
    ensures |r| == |s|
    ensures forall i :: 0 <= i < |s| ==> r[i] == if 'A' <= s[i] <= 'Z' then (s[i] as int + 32) as char else s[i]
  {
    seq(|s|, i requires 0 <= i < |s| => if 'A' <= s[i] <= 'Z' then (s[i] as int + 32) as char else s[i])
  }

  /** Python `sep.join(parts)`. */
  function Join(parts: seq<string>, sep: string): string
  {
    if |parts| == 0 then ""
    else if |parts| == 1 then parts[0]
    else parts[0] + sep + Join(parts[1..], sep)
  }

  /** Python `s.split(sep)` for a non-empty separator: cut at every
      leftmost non-overlapping occurrence; empty pieces are kept. */
  function Split(s: string, sep: string): (r: seq<string>)
    requires |sep| > 0
    ensures |r| >= 1
    decreases |s|
  {
    match Find(s, sep, 0)
    case None => [s]
    case Some(i) => [s[..i]] + Split(s[i + |sep|..], sep)
  }

  /** Joining the pieces gives back the string, no piece holds the
      separator, and a string without it is its own single piece. */
  lemma SplitSpec(s: string, sep: string)
    requires |sep| > 0
    ensures Join(Split(s, sep), sep) == s
    ensures forall p :: 0 <= p < |Split(s, sep)| ==> !Contains(Split(s, sep)[p], sep)
    ensures !Contains(s, sep) ==> Split(s, sep) == [s]
  {
    SplitJoin(s, sep);
    SplitPieces(s, sep);
  }

  lemma {:induction false} SplitJoin(s: string, sep: string)
    requires |sep| > 0
    ensures Join(Split(s, sep), sep) == s
    decreases |s|
  {
    match Find(s, sep, 0)
    case None =>
    case Some(i) =>
      var tail := s[i + |sep|..];
      var rest := Split(tail, sep);
      SplitJoin(tail, sep);
      assert Split(s, sep) == [s[..i]] + rest;
      assert ([s[..i]] + rest)[1..] == rest;
      assert s == s[..i] + sep + tail;
  }

  lemma {:induction false} SplitPieces(s: string, sep: string)
    requires |sep| > 0
    ensures forall p :: 0 <= p < |Split(s, sep)| ==> !Contains(Split(s, sep)[p], sep)
    decreases |s|
  {
    match Find(s, sep, 0)
    case None =>
    case Some(i) =>
      var tail := s[i + |sep|..];
      var rest := Split(tail, sep);
      SplitPieces(tail, sep);
      NoEarlierOccurrence(s, sep, i);
      assert Split(s, sep) == [s[..i]] + rest;
  }

  /** A prefix that ends before the leftmost occurrence contains none. */
  lemma NoEarlierOccurrence(s: string, sep: string, i: nat)
    requires |sep| > 0 && OccursAt(s, sep, i)
    requires forall k :: 0 <= k < i ==> !OccursAt(s, sep, k)
    ensures !Contains(s[..i], sep)
  {
    forall k: nat
      ensures !OccursAt(s[..i], sep, k)
    {
      if k + |sep| <= i {
        assert k < i && !OccursAt(s, sep, k);
        assert s[..i][k..k + |sep|] == s[k..k + |sep|];
      }
    }
  }

  /** The first piece of a split is the text before the first separator. */
  lemma SplitHead(s: string, sep: string)
    requires |sep| > 0
    ensures Find(s, sep, 0).Some? ==> Split(s, sep)[0] == s[..Find(s, sep, 0).value] && |Split(s, sep)| >= 2
    ensures Find(s, sep, 0).None? ==> Split(s, sep) == [s]
  {
  }
}
