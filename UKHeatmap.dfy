/**
 * The events heatmap (src/components/UKHeatmap.tsx): the intensity lookups for marker
 * colour and size, the marker glyph chosen by attendee count, the marker position
 * computed from the event's index, the grouping of events by city and the two-event
 * preview on each city card.
 */
module UKHeatmap {
  import opened Seqs

  /** An event; `intensity` is a stored label, not derived from `attendees`. */
  datatype Event = Event(
    id: int,
    title: string,
    location: string,
    city: string,
    time: string,
    tags: seq<string>,
    hostRating: real,
    attendees: int,
    intensity: string)

  // ---------------------------------------------------------------------------
  // Intensity lookups
  // ---------------------------------------------------------------------------

  predicate KnownIntensity(intensity: string) {
    intensity == "high" || intensity == "medium" || intensity == "low"
  }

  const DefaultColor := "bg-gray-500 hover:bg-gray-600"

  /** `getIntensityColor`: red, orange, yellow; grey for any other label. */
  function IntensityColor(intensity: string): (r: string)
    ensures r == DefaultColor <==> !KnownIntensity(intensity)
  {
    match intensity
    case "high" => "bg-red-500 hover:bg-red-600"
    case "medium" => "bg-orange-500 hover:bg-orange-600"
    case "low" => "bg-yellow-500 hover:bg-yellow-600"
    case _ => DefaultColor
  }

  /** `getIntensitySize`: any label other than "high" and "medium" gets the "low" size. */
  function IntensitySize(intensity: string): (r: string)
    ensures r == "w-4 h-4" <==> intensity != "high" && intensity != "medium"
    ensures r == "w-6 h-6" <==> intensity == "high"
    ensures r == "w-5 h-5" <==> intensity == "medium"
  {
    match intensity
    case "high" => "w-6 h-6"
    case "medium" => "w-5 h-5"
    case "low" => "w-4 h-4"
    case _ => "w-4 h-4"
  }

  /** The text before the first space of `s` (all of `s` when it has none): `s.split(' ')[0]`. */
  function FirstWord(s: string): (r: string)
    ensures |r| <= |s| && r == s[..|r|] && ' ' !in r
    ensures |r| < |s| ==> s[|r|] == ' '
  {
    if s == [] || s[0] == ' ' then []
    else
      var w := [s[0]] + FirstWord(s[1..]);
      assert s[..|w|] == [s[0]] + s[1..][..|w| - 1];
      w
  }

  /** The first word of a word followed by a space is that word. */
  lemma {:induction false} FirstWordBeforeSpace(w: string, rest: string)
    requires ' ' !in w
    ensures FirstWord(w + [' '] + rest) == w
  {
    var s := w + [' '] + rest;
    if w == [] {
      assert s[0] == ' ';
    } else {
      assert s[1..] == w[1..] + [' '] + rest;
      FirstWordBeforeSpace(w[1..], rest);
    }
  }

  /** The colour dot of an event on its city card: the first class of its marker colour. */
  function DotColor(intensity: string): string {
    FirstWord(IntensityColor(intensity))
  }

  /** A colour string `w hover` has the dot colour `w`. */
  lemma {:induction false} DotColorIs(intensity: string, w: string, hover: string)
    requires ' ' !in w && IntensityColor(intensity) == w + [' '] + hover
    ensures DotColor(intensity) == w
  {
    FirstWordBeforeSpace(w, hover);
  }

  lemma HighDot()
    ensures DotColor("high") == "bg-red-500"
  {
    DotColorIs("high", "bg-red-500", "hover:bg-red-600");
  }

  lemma MediumDot()
    ensures DotColor("medium") == "bg-orange-500"
  {
    DotColorIs("medium", "bg-orange-500", "hover:bg-orange-600");
  }

  lemma LowDot()
    ensures DotColor("low") == "bg-yellow-500"
  {
    DotColorIs("low", "bg-yellow-500", "hover:bg-yellow-600");
  }

  lemma DefaultDot(intensity: string)
    requires !KnownIntensity(intensity)
    ensures DotColor(intensity) == "bg-gray-500"
  {
    assert DefaultColor == "bg-gray-500" + [' '] + "hover:bg-gray-600";
    assert IntensityColor(intensity) == DefaultColor;
    DotColorIs(intensity, "bg-gray-500", "hover:bg-gray-600");
  }

  /** The dot is red, orange or yellow for the three known intensities and grey otherwise. */
  lemma DotColors(intensity: string)
    ensures intensity == "high" ==> DotColor(intensity) == "bg-red-500"
    ensures intensity == "medium" ==> DotColor(intensity) == "bg-orange-500"
    ensures intensity == "low" ==> DotColor(intensity) == "bg-yellow-500"
    ensures DotColor(intensity) == "bg-gray-500" <==> !KnownIntensity(intensity)
  {
    if intensity == "high" {
      HighDot();
    } else if intensity == "medium" {
      MediumDot();
    } else if intensity == "low" {
      LowDot();
    } else {
      DefaultDot(intensity);
    }
  }

  // ---------------------------------------------------------------------------
  // Markers
  // ---------------------------------------------------------------------------

  datatype Glyph = Fire | Sparkles | Dot

  /** The marker glyph: over 100 attendees, over 50, or at most 50. */
  function MarkerGlyph(attendees: int): (g: Glyph)
    ensures g == Fire <==> attendees > 100
    ensures g == Sparkles <==> 50 < attendees <= 100
    ensures g == Dot <==> attendees <= 50
  {
    if attendees > 100 then Fire else if attendees > 50 then Sparkles else Dot
  }

  /** Top offset, in percent, of the marker of the event at `index`. */
  function MarkerTop(index: nat): (r: int)
    ensures 20 <= r < 80
  {
    20 + (index * 15) % 60
  }

  /** Left offset, in percent, of the marker of the event at `index`. */
  function MarkerLeft(index: nat): (r: int)
    ensures 25 <= r < 75
  {
    25 + (index * 20) % 50
  }

  /** Markers repeat their top offset every 4 events and their left offset every 5. */
  lemma MarkerPeriods(index: nat)
    ensures MarkerTop(index + 4) == MarkerTop(index)
    ensures MarkerLeft(index + 5) == MarkerLeft(index)
  {
    var t, l := index * 15, index * 20;
    assert (index + 4) * 15 == t + 60;
    assert (index + 5) * 20 == l + 100;
    assert (t + 60) % 60 == t % 60;
    assert (l + 100) % 50 == l % 50;
  }

  // ---------------------------------------------------------------------------
  // Events by city
  // ---------------------------------------------------------------------------

  /** The events of `city`, in their order in `events`. */
  function EventsIn(events: seq<Event>, city: string): (r: seq<Event>)
    ensures forall e :: e in r <==> e in events && e.city == city
    ensures IsSubseq(r, events)
  {
    FilterIsSubseq(events, (e: Event) => e.city == city);
    Filter(events, (e: Event) => e.city == city)
  }

  /** A city's group holds each of its events as many times as the event list does. */
  lemma EventsInCount(events: seq<Event>, city: string)
    ensures forall e ::
      multiset(EventsIn(events, city))[e] == if e.city == city then multiset(events)[e] else 0
  {
    FilterCount(events, (e: Event) => e.city == city);
  }

  /** The city of each event, in event order. */
  function CityList(events: seq<Event>): (r: seq<string>)
    ensures |r| == |events|
    ensures forall i :: 0 <= i < |events| ==> r[i] == events[i].city
  {
    if events == [] then []
    else CityList(events[..|events| - 1]) + [events[|events| - 1].city]
  }

  /** The keys of the `cityEvents` object in insertion order: cities by first appearance. */
  function Cities(events: seq<Event>): seq<string> {
    Distinct(CityList(events))
  }

  lemma EventsInSnoc(events: seq<Event>, e: Event, city: string)
    ensures EventsIn(events + [e], city) == EventsIn(events, city) + (if e.city == city then [e] else [])
  {
    FilterSnoc(events, e, (x: Event) => x.city == city);
  }

  /** One more event adds its city at the end of the key order, unless the city is already a key. */
  lemma CitiesSnoc(events: seq<Event>, e: Event)
    ensures Cities(events + [e]) == if e.city in Cities(events) then Cities(events) else Cities(events) + [e.city]
  {
  }

  /** A city without events has an empty group. */
  lemma EventsInAbsent(events: seq<Event>, city: string)
    requires city !in CityList(events)
    ensures EventsIn(events, city) == []
  {
  }

  /** `groups`, keyed in the order `cities`, holds the events of `events` by city. */
  ghost predicate GroupedBy(groups: map<string, seq<Event>>, cities: seq<string>, events: seq<Event>) {
    && cities == Cities(events)
    && (forall c :: c in groups <==> c in cities)
    && (forall c :: c in groups ==> groups[c] == EventsIn(events, c))
  }

  /** The map after one step of the reduce: the city gets a group if it has none, then the event. */
  function Pushed(groups: map<string, seq<Event>>, e: Event): (g: map<string, seq<Event>>)
    ensures g.Keys == groups.Keys + {e.city}
    ensures forall c :: c in groups && c != e.city ==> g[c] == groups[c]
    ensures g[e.city] == (if e.city in groups then groups[e.city] else []) + [e]
  {
    var g := if e.city in groups then groups else groups[e.city := []];
    g[e.city := g[e.city] + [e]]
  }

  /** The key order after one step of the reduce: a new city goes last. */
  function PushedCities(groups: map<string, seq<Event>>, cities: seq<string>, e: Event): seq<string> {
    if e.city in groups then cities else cities + [e.city]
  }

  /** One step of the reduce keeps every group equal to the events of its city. */
  lemma PushKeepsGroups(groups: map<string, seq<Event>>, cities: seq<string>, events: seq<Event>, e: Event)
    requires GroupedBy(groups, cities, events)
    ensures forall c :: c in Pushed(groups, e) ==> Pushed(groups, e)[c] == EventsIn(events + [e], c)
  {
    var g' := Pushed(groups, e);
    forall c | c in g' ensures g'[c] == EventsIn(events + [e], c) {
      EventsInSnoc(events, e, c);
      if c == e.city && c !in groups {
        EventsInAbsent(events, c);
      }
    }
  }

  /** One step of the reduce keeps the grouping. */
  lemma PushKeepsGrouping(groups: map<string, seq<Event>>, cities: seq<string>, events: seq<Event>, e: Event)
    requires GroupedBy(groups, cities, events)
    ensures GroupedBy(Pushed(groups, e), PushedCities(groups, cities, e), events + [e])
  {
    CitiesSnoc(events, e);
    PushKeepsGroups(groups, cities, events, e);
  }

  /**
   * The `cityEvents` reduce: one group per city, keys in insertion order, each event pushed
   * onto the group of its own city.
   */
  method GroupByCity(events: seq<Event>) returns (groups: map<string, seq<Event>>, cities: seq<string>)
    ensures cities == Cities(events)
    ensures forall c :: c in groups <==> c in cities
    ensures forall c :: c in groups ==> groups[c] == EventsIn(events, c)
  {
    groups, cities := map[], [];
    for i := 0 to |events|
      invariant GroupedBy(groups, cities, events[..i])
    {
      var e := events[i];
      assert events[..i + 1] == events[..i] + [e];
      PushKeepsGrouping(groups, cities, events[..i], e);
      if e.city !in groups {
        groups := groups[e.city := []];
        cities := cities + [e.city];
      }
      groups := groups[e.city := groups[e.city] + [e]];
    }
    assert events[..|events|] == events;
  }

  /** An event belongs to exactly one group, the one keyed by its own city. */
  lemma GroupOfEvent(events: seq<Event>, e: Event, city: string)
    requires e in events
    ensures e.city in Cities(events)
    ensures e in EventsIn(events, city) <==> city == e.city
  {
  }

  /** Total number of events in the groups of `cities`. */
  function GroupSizes(events: seq<Event>, cities: seq<string>): nat {
    if cities == [] then 0 else |EventsIn(events, cities[0])| + GroupSizes(events, cities[1..])
  }

  lemma {:induction false} GroupSizesSnocEvent(events: seq<Event>, e: Event, cities: seq<string>)
    requires NoDuplicates(cities)
    ensures GroupSizes(events + [e], cities) == GroupSizes(events, cities) + (if e.city in cities then 1 else 0)
  {
    if cities != [] {
      EventsInSnoc(events, e, cities[0]);
      NoDuplicatesTail(cities);
      GroupSizesSnocEvent(events, e, cities[1..]);
      assert e.city in cities <==> e.city == cities[0] || e.city in cities[1..];
    }
  }

  lemma {:induction false} GroupSizesSnocCity(events: seq<Event>, cities: seq<string>, c: string)
    ensures GroupSizes(events, cities + [c]) == GroupSizes(events, cities) + |EventsIn(events, c)|
  {
    if cities == [] {
      assert GroupSizes(events, [c]) == |EventsIn(events, c)| + GroupSizes(events, []);
    } else {
      assert (cities + [c])[1..] == cities[1..] + [c];
      GroupSizesSnocCity(events, cities[1..], c);
    }
  }

  /** One more event adds exactly one to the total size of the groups. */
  lemma GroupSizesSnoc(events: seq<Event>, e: Event)
    ensures GroupSizes(events + [e], Cities(events + [e])) == GroupSizes(events, Cities(events)) + 1
  {
    var d := Cities(events);
    CitiesSnoc(events, e);
    GroupSizesSnocEvent(events, e, d);
    if e.city !in d {
      GroupSizesSnocCity(events + [e], d, e.city);
      EventsInAbsent(events, e.city);
      EventsInSnoc(events, e, e.city);
    }
  }

  /** The groups partition the events: their sizes add up to the number of events. */
  lemma {:induction false} GroupSizesTotal(events: seq<Event>)
    ensures GroupSizes(events, Cities(events)) == |events|
  {
    if events != [] {
      var p, e := events[..|events| - 1], events[|events| - 1];
      assert events == p + [e];
      GroupSizesTotal(p);
      GroupSizesSnoc(p, e);
    }
  }

  /** A city card previews the first two events of its group (fewer if it has fewer). */
  function Preview(group: seq<Event>): (r: seq<Event>)
    ensures |r| == if |group| < 2 then |group| else 2
    ensures r == group[..|r|]
  {
    if |group| < 2 then group else group[..2]
  }
}
