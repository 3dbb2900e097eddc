/**
 * The dashboard's completion slider: while dragging, the thumb follows the
 * finger; when the gesture ends, the completion value moves by a third of
 * the horizontal travel, clamped to 0..100 and rounded, and the thumb
 * offset snaps back to 0. The value of the investment shown beside it is
 * that percentage of AED 1,225,600.
 */
module PercentSlider {
  import opened Numeric

  /** The `State` of a `react-native-gesture-handler` event. */
  datatype GestureState = Undetermined | Failed | Began | Cancelled | Active | End

  /** The total the value is a share of. */
  const TotalValue: int := 1225600

  /** `Math.round(Math.max(0, Math.min(100, sliderValue + translationX / 3)))`. */
  function Released(value: int, translationX: real): (r: int)
    ensures 0 <= r <= 100
  {
    Round(ClampReal(value as real + translationX / 3.0, 0.0, 100.0))
  }

  /** Releasing without travel keeps an in-range value. */
  lemma ReleaseAtRest(value: int)
    requires 0 <= value <= 100
    ensures Released(value, 0.0) == value
  {
    RoundInt(value);
  }

  /** From any in-range value, 300 pixels of travel reach an end of the scale. */
  lemma ReleaseSaturates(value: int, translationX: real)
    requires 0 <= value <= 100
    ensures 300.0 <= translationX ==> Released(value, translationX) == 100
    ensures translationX <= -300.0 ==> Released(value, translationX) == 0
  {
    RoundInt(100);
    RoundInt(0);
  }

  /** More travel to the right never gives a smaller value. */
  lemma ReleaseMonotone(value: int, t1: real, t2: real)
    requires t1 <= t2
    ensures Released(value, t1) <= Released(value, t2)
  {
    var a := ClampReal(value as real + t1 / 3.0, 0.0, 100.0);
    var b := ClampReal(value as real + t2 / 3.0, 0.0, 100.0);
    assert a <= b;
    RoundMonotone(a, b);
  }

  /** `percentage = Math.round(sliderValue)`: the slider value is already whole. */
  function Percentage(value: int): (p: int)
    ensures p == value
  {
    Round(value as real)
  }

  /** `aedValue = Math.round((percentage / 100) * 1225600)`: exactly 12,256 dirhams per percent. */
  function AedValue(percentage: int): (v: int)
    ensures v == 12256 * percentage
    ensures percentage == 0 ==> v == 0
    ensures percentage == 100 ==> v == TotalValue
    ensures 0 <= percentage <= 100 ==> 0 <= v <= TotalValue
  {
    assert (percentage as real / 100.0) * 1225600.0 == (12256 * percentage) as real;
    RoundInt(12256 * percentage);
    Round((percentage as real / 100.0) * TotalValue as real)
  }

  /** A larger percentage never shows a smaller value. */
  lemma AedValueMonotone(p: int, q: int)
    requires p <= q
    ensures AedValue(p) <= AedValue(q)
  {
  }

  class CompletionSlider {
    var sliderValue: int
    var translateX: real

    ghost predicate Valid()
      reads this
    {
      0 <= sliderValue <= 100
    }

    constructor ()
      ensures Valid()
      ensures sliderValue == 35 && translateX == 0.0
    {
      sliderValue, translateX := 35, 0.0;
    }

    /** The animated event: the thumb follows the gesture's `translationX`. */
    method Drag(translationX: real)
      modifies this`translateX
      ensures translateX == translationX
    {
      translateX := translationX;
    }

    /** `handleStateChange`: only the end of the gesture commits the travel. */
    method HandleStateChange(state: GestureState, translationX: real)
      requires Valid()
      modifies this
      ensures Valid()
      ensures state == End ==> sliderValue == Released(old(sliderValue), translationX) && translateX == 0.0
      ensures state != End ==> sliderValue == old(sliderValue) && translateX == old(translateX)
    {
      if state == End {
        var newValue := ClampReal(sliderValue as real + translationX / 3.0, 0.0, 100.0);
        sliderValue := Round(newValue);
        translateX := 0.0;
      }
    }

    /** The two figures shown: the percentage and its value in dirhams. */
    function Shown(): (figures: (int, int))
      reads this
      requires Valid()
      ensures figures.0 == sliderValue
      ensures 0 <= figures.1 <= TotalValue
    {
      var p := Percentage(sliderValue);
      (p, AedValue(p))
    }
  }
}
