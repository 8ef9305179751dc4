/** The viability panel of simPlots_comb in grmodel/figures/Figure4.py:
    the confluence table at 72 h (rows: drug 1 levels, columns: drug 2
    levels) is normalised to its untreated corner, turned into an effect,
    compared with the Bliss-additive prediction built from its first row
    and column, and overwritten with the difference. */
module BlissFigure {
  import opened Common
  import opened Interaction

  /** 1 - x / control: the effect of a reading relative to the control. */
  function Effect(x: real, control: real): real
    requires control != 0.0
  {
    1.0 - x / control
  }

  /** The control itself has no effect. */
  lemma EffectOfControl(control: real)
    requires control != 0.0
    ensures Effect(control, control) == 0.0
  {
  }

  /** An effect is at most 1 exactly when the reading has the control's
      sign (or is zero); in particular whenever the control is positive
      and the reading is not negative. */
  lemma EffectBound(x: real, control: real)
    requires control != 0.0
    ensures Effect(x, control) <= 1.0 <==> x / control >= 0.0
    ensures control > 0.0 && x >= 0.0 ==> Effect(x, control) <= 1.0
  {
    if control > 0.0 && x >= 0.0 {
      assert x / control >= 0.0;
    }
  }

  /** The first assert implies the second: two effects of at most 1 give
      a Bliss-additive effect of at most 1, because
      1 - Bliss(a, b) == (1 - a) * (1 - b). */
  lemma AdditiveAtMostOne(a: real, b: real)
    requires a <= 1.0 && b <= 1.0
    ensures Bliss(a, b) <= 1.0
  {
    BlissComplement(a, b);
    NonNegativeProduct(1.0 - a, 1.0 - b);
  }

  lemma NonNegativeProduct(x: real, y: real)
    requires x >= 0.0 && y >= 0.0
    ensures x * y >= 0.0
  {
  }

  /** The residual at (i, j) from the raw readings x_ij, x_i0 and x_0j. */
  function ResidualAt(xij: real, xi0: real, x0j: real, control: real): real
    requires control != 0.0
  {
    Effect(xij, control) - Bliss(Effect(xi0, control), Effect(x0j, control))
  }

  /** The additive prediction reproduces the first row and the first
      column, where one of the two drugs is absent, so the residual is
      zero there. */
  lemma ResidualOnAxes(xi0: real, x0j: real, control: real)
    requires control != 0.0
    ensures ResidualAt(x0j, control, x0j, control) == 0.0
    ensures ResidualAt(xi0, xi0, control, control) == 0.0
  {
    EffectOfControl(control);
  }

  // ---------------------------------------------------------------------
  // The array steps.

  /** confldf.to_numpy(): a fresh copy of the table. */
  method CopyOf(a: array2<real>) returns (c: array2<real>)
    ensures fresh(c) && c.Length0 == a.Length0 && c.Length1 == a.Length1
    ensures forall i, j :: 0 <= i < c.Length0 && 0 <= j < c.Length1 ==> c[i, j] == a[i, j]
  {
    c := new real[a.Length0, a.Length1];
    var i := 0;
    while i < a.Length0
      invariant 0 <= i <= a.Length0
      invariant forall i', j :: 0 <= i' < i && 0 <= j < c.Length1 ==> c[i', j] == a[i', j]
    {
      var j := 0;
      while j < a.Length1
        invariant 0 <= j <= a.Length1
        invariant forall i', j' :: 0 <= i' < i && 0 <= j' < c.Length1 ==> c[i', j'] == a[i', j']
        invariant forall j' :: 0 <= j' < j ==> c[i, j'] == a[i, j']
      {
        c[i, j] := a[i, j];
        j := j + 1;
      }
      i := i + 1;
    }
  }

  /** a /= v, in place. */
  method DivideAll(a: array2<real>, v: real)
    requires v != 0.0
    modifies a
    ensures forall i, j :: 0 <= i < a.Length0 && 0 <= j < a.Length1 ==> a[i, j] == old(a[i, j]) / v
  {
    var i := 0;
    while i < a.Length0
      invariant 0 <= i <= a.Length0
      invariant forall i', j :: 0 <= i' < i && 0 <= j < a.Length1 ==> a[i', j] == old(a[i', j]) / v
      invariant forall i', j :: i <= i' < a.Length0 && 0 <= j < a.Length1 ==> a[i', j] == old(a[i', j])
    {
      var j := 0;
      while j < a.Length1
        invariant 0 <= j <= a.Length1
        invariant forall i', j' :: 0 <= i' < i && 0 <= j' < a.Length1 ==> a[i', j'] == old(a[i', j']) / v
        invariant forall i', j' :: i < i' < a.Length0 && 0 <= j' < a.Length1 ==> a[i', j'] == old(a[i', j'])
        invariant forall j' :: 0 <= j' < j ==> a[i, j'] == old(a[i, j']) / v
        invariant forall j' :: j <= j' < a.Length1 ==> a[i, j'] == old(a[i, j'])
      {
        a[i, j] := a[i, j] / v;
        j := j + 1;
      }
      i := i + 1;
    }
  }

  /** 1.0 - a, a fresh array. */
  method OneMinus(a: array2<real>) returns (c: array2<real>)
    ensures fresh(c) && c.Length0 == a.Length0 && c.Length1 == a.Length1
    ensures forall i, j :: 0 <= i < c.Length0 && 0 <= j < c.Length1 ==> c[i, j] == 1.0 - a[i, j]
  {
    c := new real[a.Length0, a.Length1];
    var i := 0;
    while i < a.Length0
      invariant 0 <= i <= a.Length0
      invariant forall i', j :: 0 <= i' < i && 0 <= j < c.Length1 ==> c[i', j] == 1.0 - a[i', j]
    {
      var j := 0;
      while j < a.Length1
        invariant 0 <= j <= a.Length1
        invariant forall i', j' :: 0 <= i' < i && 0 <= j' < c.Length1 ==> c[i', j'] == 1.0 - a[i', j']
        invariant forall j' :: 0 <= j' < j ==> c[i, j'] == 1.0 - a[i, j']
      {
        c[i, j] := 1.0 - a[i, j];
        j := j + 1;
      }
      i := i + 1;
    }
  }

  /** np.all(a <= 1.0). */
  method AllAtMostOne(a: array2<real>) returns (ok: bool)
    ensures ok <==> forall i, j :: 0 <= i < a.Length0 && 0 <= j < a.Length1 ==> a[i, j] <= 1.0
  {
    var i := 0;
    while i < a.Length0
      invariant 0 <= i <= a.Length0
      invariant forall i', j :: 0 <= i' < i && 0 <= j < a.Length1 ==> a[i', j] <= 1.0
    {
      var j := 0;
      while j < a.Length1
        invariant 0 <= j <= a.Length1
        invariant forall i', j' :: 0 <= i' < i && 0 <= j' < a.Length1 ==> a[i', j'] <= 1.0
        invariant forall j' :: 0 <= j' < j ==> a[i, j'] <= 1.0
      {
        if a[i, j] > 1.0 {
          return false;
        }
        j := j + 1;
      }
      i := i + 1;
    }
    return true;
  }

  /** (c[:, 0][:, None] + c[0, :][None, :]) - np.outer(c[:, 0], c[0, :]). */
  method AdditiveOf(c: array2<real>) returns (add: array2<real>)
    requires c.Length0 > 0 && c.Length1 > 0
    ensures fresh(add) && add.Length0 == c.Length0 && add.Length1 == c.Length1
    ensures forall i, j :: 0 <= i < add.Length0 && 0 <= j < add.Length1 ==> add[i, j] == Bliss(c[i, 0], c[0, j])
  {
    add := new real[c.Length0, c.Length1];
    var i := 0;
    while i < c.Length0
      invariant 0 <= i <= c.Length0
      invariant forall i', j :: 0 <= i' < i && 0 <= j < add.Length1 ==> add[i', j] == Bliss(c[i', 0], c[0, j])
    {
      var j := 0;
      while j < c.Length1
        invariant 0 <= j <= c.Length1
        invariant forall i', j' :: 0 <= i' < i && 0 <= j' < add.Length1 ==> add[i', j'] == Bliss(c[i', 0], c[0, j'])
        invariant forall j' :: 0 <= j' < j ==> add[i, j'] == Bliss(c[i, 0], c[0, j'])
      {
        add[i, j] := (c[i, 0] + c[0, j]) - c[i, 0] * c[0, j];
        j := j + 1;
      }
      i := i + 1;
    }
  }

  /** confldf.iloc[:, :] = c - add. */
  method StoreDifference(frame: array2<real>, c: array2<real>, add: array2<real>)
    requires frame != c && frame != add
    requires c.Length0 == add.Length0 == frame.Length0 && c.Length1 == add.Length1 == frame.Length1
    modifies frame
    ensures forall i, j :: 0 <= i < frame.Length0 && 0 <= j < frame.Length1 ==> frame[i, j] == c[i, j] - add[i, j]
  {
    var i := 0;
    while i < frame.Length0
      invariant 0 <= i <= frame.Length0
      invariant forall i', j :: 0 <= i' < i && 0 <= j < frame.Length1 ==> frame[i', j] == c[i', j] - add[i', j]
    {
      var j := 0;
      while j < frame.Length1
        invariant 0 <= j <= frame.Length1
        invariant forall i', j' :: 0 <= i' < i && 0 <= j' < frame.Length1 ==> frame[i', j'] == c[i', j'] - add[i', j']
        invariant forall j' :: 0 <= j' < j ==> frame[i, j'] == c[i, j'] - add[i, j']
      {
        frame[i, j] := c[i, j] - add[i, j];
        j := j + 1;
      }
      i := i + 1;
    }
  }

  /** Lines 62-72 of simPlots_comb on the pivoted confluence table: an
      empty table raises IndexError at the corner read, an effect above 1
      fails the first assert, and otherwise the table is overwritten with
      the residual of each effect against the Bliss prediction, which is
      zero on the first row and column. The second assert cannot fail. */
  method ViabilityResidual(frame: array2<real>) returns (err: Option<Error>)
    requires frame.Length0 > 0 && frame.Length1 > 0 ==> frame[0, 0] != 0.0
    modifies frame
    ensures err.None? <==>
              && frame.Length0 > 0 && frame.Length1 > 0
              && forall i, j :: 0 <= i < frame.Length0 && 0 <= j < frame.Length1 ==>
                   Effect(old(frame[i, j]), old(frame[0, 0])) <= 1.0
    ensures err.Some? ==> err.value == if frame.Length0 == 0 || frame.Length1 == 0 then IndexError else AssertionError
    ensures err.Some? ==> unchanged(frame)
    ensures err.None? ==> forall i, j :: 0 <= i < frame.Length0 && 0 <= j < frame.Length1 ==>
              frame[i, j] == ResidualAt(old(frame[i, j]), old(frame[i, 0]), old(frame[0, j]), old(frame[0, 0]))
    ensures err.None? ==> (forall j :: 0 <= j < frame.Length1 ==> frame[0, j] == 0.0)
                          && (forall i :: 0 <= i < frame.Length0 ==> frame[i, 0] == 0.0)
  {
    if frame.Length0 == 0 || frame.Length1 == 0 {
      return Some(IndexError);
    }
    var confl := CopyOf(frame);
    var control := confl[0, 0];
    DivideAll(confl, control);
    confl := OneMinus(confl);
    assert forall i, j :: 0 <= i < frame.Length0 && 0 <= j < frame.Length1 ==>
             confl[i, j] == Effect(frame[i, j], control);
    var ok := AllAtMostOne(confl);
    if !ok {
      return Some(AssertionError);
    }
    var additive := AdditiveOf(confl);
    forall i, j | 0 <= i < frame.Length0 && 0 <= j < frame.Length1
      ensures additive[i, j] <= 1.0
    {
      AdditiveAtMostOne(confl[i, 0], confl[0, j]);
    }
    StoreDifference(frame, confl, additive);
    forall i, j | 0 <= i < frame.Length0 && 0 <= j < frame.Length1
      ensures (i == 0 || j == 0) ==> frame[i, j] == 0.0
    {
      ResidualOnAxes(old(frame[i, 0]), old(frame[0, j]), control);
    }
    return None;
  }
}
