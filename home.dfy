/**
 * The home screen's project list: six properties, a "Recent" tab showing
 * the first two and an "All" tab showing every one, a heart per row that
 * toggles the row's favourite flag, and a card press that opens the
 * dashboard for "The Weave" only.
 */
module Home {
  import opened Wrappers

  /** An entry of `ALL_PROPERTIES`; `isFav` is absent on most entries. */
  datatype Property = Property(name: string, builder: string, isFav: Option<bool>)

  const AllProperties: seq<Property> := [
    Property("The Weave", "At JVC by Al Ghurair", Some(true)),
    Property("Ellington Properties", "The Cove", Some(true)),
    Property("Dubai Islands", "Emaar, Ellington Properties", None),
    Property("Dubai Marina", "Nakheel Properties", None),
    Property("Palm Jumeirah", "Emaar", None),
    Property("Dubai Hills Estate", "Meraas", None)
  ]

  /** `p.isFav || false`: an absent flag reads as not favourite. */
  function FavOf(p: Property): (b: bool)
    ensures b <==> p.isFav == Some(true)
  {
    if p.isFav.Some? then p.isFav.value else false
  }

  /** The initial `favStates`: one flag per property, in order. */
  function InitialFavs(): (fs: seq<bool>)
    ensures |fs| == |AllProperties|
    ensures forall i :: 0 <= i < |fs| ==> (fs[i] <==> AllProperties[i].isFav == Some(true))
  {
    seq(|AllProperties|, i requires 0 <= i < |AllProperties| => FavOf(AllProperties[i]))
  }

  /** Six flags, and only the first two properties start as favourites. */
  lemma InitialFavsValue()
    ensures InitialFavs() == [true, true, false, false, false, false]
  {
    var fs := InitialFavs();
    assert |fs| == 6;
    assert fs[0] && fs[1];
    assert !fs[2] && !fs[3] && !fs[4] && !fs[5];
  }

  /** The flags after `toggleFav(index)`: entry `index` negated, all others kept. */
  function Toggled(fs: seq<bool>, index: int): (r: seq<bool>)
    requires 0 <= index < |fs|
    ensures |r| == |fs|
    ensures r[index] == !fs[index]
    ensures forall j :: 0 <= j < |fs| && j != index ==> r[j] == fs[j]
  {
    fs[index := !fs[index]]
  }

  /** Toggling the same heart twice restores the flags. */
  lemma ToggleTwice(fs: seq<bool>, index: int)
    requires 0 <= index < |fs|
    ensures Toggled(Toggled(fs, index), index) == fs
  {
    var r := Toggled(Toggled(fs, index), index);
    assert forall j :: 0 <= j < |fs| ==> r[j] == fs[j];
  }

  /** Toggles of two different hearts commute. */
  lemma TogglesCommute(fs: seq<bool>, i: int, j: int)
    requires 0 <= i < |fs| && 0 <= j < |fs|
    ensures Toggled(Toggled(fs, i), j) == Toggled(Toggled(fs, j), i)
  {
    var a := Toggled(Toggled(fs, i), j);
    var b := Toggled(Toggled(fs, j), i);
    assert forall k :: 0 <= k < |fs| ==> a[k] == b[k];
  }

  /** The two tabs of the toggle. */
  datatype Tab = Recent | All

  /** `RECENT = ALL_PROPERTIES.slice(0, 2)`. */
  function RecentProperties(): (r: seq<Property>)
    ensures |r| == 2
    ensures r == AllProperties[..2]
  {
    AllProperties[..2]
  }

  /** The list `FlatList` renders for the selected tab. */
  function Visible(tab: Tab): (ps: seq<Property>)
    ensures tab == Recent ==> |ps| == 2
    ensures tab == All ==> ps == AllProperties
  {
    if tab == Recent then RecentProperties() else AllProperties
  }

  /**
   * Both lists are prefixes of `ALL_PROPERTIES`, so the row index a heart
   * reports names the same property in either tab, and it always falls
   * within `favStates`.
   */
  lemma VisibleIsPrefix(tab: Tab, i: int)
    requires 0 <= i < |Visible(tab)|
    ensures Visible(tab)[i] == AllProperties[i]
    ensures i < |InitialFavs()|
  {
  }

  /** The card press: `/dashboard` for "The Weave", no navigation for any other card. */
  function CardPressRoute(name: string): (route: Option<string>)
    ensures route.Some? <==> name == "The Weave"
    ensures route.Some? ==> route.value == "/dashboard"
  {
    if name == "The Weave" then Some("/dashboard") else None
  }

  /** Of the six properties only the first opens the dashboard. */
  lemma OnlyFirstCardNavigates(i: int)
    requires 0 <= i < |AllProperties|
    ensures CardPressRoute(AllProperties[i].name).Some? <==> i == 0
  {
  }

  class HomeScreen {
    var selectedTab: Tab
    var favStates: seq<bool>

    ghost predicate Valid()
      reads this
    {
      |favStates| == |AllProperties|
    }

    constructor ()
      ensures Valid()
      ensures selectedTab == Recent && favStates == InitialFavs()
    {
      selectedTab := Recent;
      favStates := InitialFavs();
    }

    /** The "Recent" and "All" buttons: `setSelectedTab`. */
    method SelectTab(tab: Tab)
      modifies this`selectedTab
      ensures selectedTab == tab
    {
      selectedTab := tab;
    }

    /** `toggleFav(index)`: copy the flags, negate entry `index` of the copy, store the copy. */
    method ToggleFav(index: int)
      requires Valid()
      requires 0 <= index < |favStates|
      modifies this`favStates
      ensures Valid()
      ensures favStates == Toggled(old(favStates), index)
    {
      var updated := new bool[|favStates|](i requires 0 <= i < |favStates| reads this => favStates[i]);
      updated[index] := !updated[index];
      favStates := updated[..];
    }

    /** The list shown for the current tab. */
    function Shown(): (ps: seq<Property>)
      reads this
      ensures |ps| <= |AllProperties|
      ensures forall i :: 0 <= i < |ps| ==> ps[i] == AllProperties[i]
    {
      Visible(selectedTab)
    }
  }
}
