/**
 * The project rating card: thirteen categories, each scored 1..5 with a
 * five-dot slider. Scores are kept in a record keyed by category id, seeded
 * from each category's initial score, and changed one key at a time.
 */
module RatingCard {

  /**
   * The thirteen category ids (`'capital'`, `'payment'`, `'service'`,
   * `'proximity'`, `'connectivity'`, `'government'`, `'record'`,
   * `'stability'`, `'reputation'`, `'quality'`, `'amenities'`, `'rental'`,
   * `'resale'`), one constructor per id string.
   */
  datatype CategoryId =
    | Capital | Payment | Service | Proximity | Connectivity | Government | Record
    | Stability | Reputation | Quality | Amenities | Rental | Resale

  datatype Category = Category(id: CategoryId, labelText: string, initial: int)

  /** The thirteen scored categories and their initial scores. */
  const Categories: seq<Category> := [
    Category(Capital, "Capital appreciation", 3),
    Category(Payment, "Payment plan", 2),
    Category(Service, "Service charges", 4),
    Category(Proximity, "Proximity", 3),
    Category(Connectivity, "Connectivity", 3),
    Category(Government, "Government infrastructure", 3),
    Category(Record, "Record", 3),
    Category(Stability, "Stability", 3),
    Category(Reputation, "Reputation", 3),
    Category(Quality, "Quality", 3),
    Category(Amenities, "Amenities", 3),
    Category(Rental, "Rental demand", 3),
    Category(Resale, "Resale", 3)
  ]

  /** The values the slider's dots stand for, left to right. */
  const Steps: seq<int> := [1, 2, 3, 4, 5]

  /** A score the slider can produce. */
  predicate IsStep(v: int)
  {
    v in Steps
  }

  ghost predicate DistinctIds(cats: seq<Category>)
  {
    forall i, j :: 0 <= i < j < |cats| ==> cats[i].id != cats[j].id
  }

  ghost predicate ScoresInRange(scores: map<CategoryId, int>)
  {
    forall k :: k in scores ==> 1 <= scores[k] <= 5
  }

  /** `categories.reduce((acc, cat) => ({ ...acc, [cat.id]: cat.initial }), {})`. */
  function Seed(cats: seq<Category>): (scores: map<CategoryId, int>)
    ensures scores.Keys == set c | c in cats :: c.id
  {
    if cats == [] then map[]
    else
      var last := cats[|cats| - 1];
      var prefix := cats[..|cats| - 1];
      assert cats == prefix + [last];
      Seed(prefix)[last.id := last.initial]
  }

  /** With distinct ids, the seeded record maps every category to its own initial score. */
  lemma {:induction false} SeedLookup(cats: seq<Category>, k: int)
    requires DistinctIds(cats)
    requires 0 <= k < |cats|
    ensures cats[k].id in Seed(cats)
    ensures Seed(cats)[cats[k].id] == cats[k].initial
  {
    var n := |cats| - 1;
    if k < n {
      SeedLookup(cats[..n], k);
    }
  }

  /** The seeded record is in range when every initial score is. */
  lemma SeedInRange(cats: seq<Category>)
    requires DistinctIds(cats)
    requires forall i :: 0 <= i < |cats| ==> 1 <= cats[i].initial <= 5
    ensures ScoresInRange(Seed(cats))
  {
    forall key | key in Seed(cats)
      ensures 1 <= Seed(cats)[key] <= 5
    {
      var c :| c in cats && c.id == key;
      var k :| 0 <= k < |cats| && cats[k] == c;
      SeedLookup(cats, k);
    }
  }

  lemma CategoriesDistinct()
    ensures DistinctIds(Categories)
  {
  }

  /** Where each id sits in `categories`. */
  function IndexOf(id: CategoryId): (k: int)
    ensures 0 <= k < |Categories| && Categories[k].id == id
    ensures Categories[k].initial == (if id == Payment then 2 else if id == Service then 4 else 3)
  {
    match id
    case Capital => 0 case Payment => 1 case Service => 2 case Proximity => 3
    case Connectivity => 4 case Government => 5 case Record => 6 case Stability => 7
    case Reputation => 8 case Quality => 9 case Amenities => 10 case Rental => 11
    case Resale => 12
  }

  /**
   * The screen's initial record holds every one of the thirteen ids, scored
   * 2 for the payment plan, 4 for the service charges and 3 for all others.
   */
  lemma InitialScores()
    ensures forall id: CategoryId :: id in Seed(Categories)
    ensures Seed(Categories)[Payment] == 2 && Seed(Categories)[Service] == 4
    ensures forall id: CategoryId :: id != Payment && id != Service ==> Seed(Categories)[id] == 3
  {
    CategoriesDistinct();
    forall id: CategoryId
      ensures id in Seed(Categories)
      ensures Seed(Categories)[id] == (if id == Payment then 2 else if id == Service then 4 else 3)
    {
      SeedLookup(Categories, IndexOf(id));
    }
  }

  /** Every initial score is a slider step. */
  lemma InitialInRange()
    ensures ScoresInRange(Seed(Categories))
  {
    InitialScores();
    var seeded := Seed(Categories);
    forall id | id in seeded
      ensures 1 <= seeded[id] <= 5
    {
    }
  }

  /** `handleScoreChange(id, v)`: `{ ...prev, [id]: v }`. */
  function ScoreChanged(scores: map<CategoryId, int>, id: CategoryId, v: int): (r: map<CategoryId, int>)
    ensures id in r && r[id] == v
    ensures forall k :: k != id ==> (k in r <==> k in scores) && (k in scores ==> r[k] == scores[k])
    ensures id in scores ==> r.Keys == scores.Keys
  {
    scores[id := v]
  }

  /** One press on a category's slider. */
  datatype ScoreChange = ScoreChange(id: CategoryId, value: int)

  /** The record after a sequence of slider presses, applied in order. */
  function ApplyChanges(scores: map<CategoryId, int>, changes: seq<ScoreChange>): map<CategoryId, int>
    decreases |changes|
  {
    if changes == [] then scores
    else ApplyChanges(ScoreChanged(scores, changes[0].id, changes[0].value), changes[1..])
  }

  /**
   * Slider presses only ever write a step value to a category already in the
   * record, so the record keeps its keys and every score stays in 1..5.
   */
  lemma {:induction false} ChangesKeepRange(scores: map<CategoryId, int>, changes: seq<ScoreChange>)
    requires ScoresInRange(scores)
    requires forall i :: 0 <= i < |changes| ==> IsStep(changes[i].value) && changes[i].id in scores
    ensures ScoresInRange(ApplyChanges(scores, changes))
    ensures ApplyChanges(scores, changes).Keys == scores.Keys
  {
    if changes != [] {
      var next := ScoreChanged(scores, changes[0].id, changes[0].value);
      ChangesKeepRange(next, changes[1..]);
    }
  }

  /** How many of `steps` the slider marks as selected (`value === step`). */
  function SelectedCount(steps: seq<int>, value: int): nat
  {
    if steps == [] then 0
    else (if steps[0] == value then 1 else 0) + SelectedCount(steps[1..], value)
  }

  /** Exactly one dot is selected for a score in 1..5, none for any other value. */
  lemma SelectedDots(value: int)
    ensures SelectedCount(Steps, value) == (if 1 <= value <= 5 then 1 else 0)
  {
    assert SelectedCount([5], value) == (if value == 5 then 1 else 0) by {
      assert [5][1..] == [];
    }
    assert SelectedCount([4, 5], value) == (if 4 <= value <= 5 then 1 else 0) by {
      assert [4, 5][1..] == [5];
    }
    assert SelectedCount([3, 4, 5], value) == (if 3 <= value <= 5 then 1 else 0) by {
      assert [3, 4, 5][1..] == [4, 5];
    }
    assert SelectedCount([2, 3, 4, 5], value) == (if 2 <= value <= 5 then 1 else 0) by {
      assert [2, 3, 4, 5][1..] == [3, 4, 5];
    }
    assert Steps[1..] == [2, 3, 4, 5];
  }

  class RatingCardScreen {
    var scores: map<CategoryId, int>

    ghost predicate Valid()
      reads this
    {
      ScoresInRange(scores) && forall id: CategoryId :: id in scores
    }

    constructor ()
      ensures Valid()
      ensures scores == Seed(Categories)
    {
      InitialScores();
      InitialInRange();
      scores := Seed(Categories);
    }

    /** `handleScoreChange`. */
    method HandleScoreChange(id: CategoryId, v: int)
      modifies this
      ensures scores == ScoreChanged(old(scores), id, v)
    {
      scores := scores[id := v];
    }

    /** A press on dot `step` of a category's slider: `onChange(step)` then `handleScoreChange`. */
    method PressDot(c: Category, step: int)
      requires Valid()
      requires IsStep(step)
      modifies this
      ensures Valid()
      ensures scores == ScoreChanged(old(scores), c.id, step)
    {
      HandleScoreChange(c.id, step);
    }
  }
}
