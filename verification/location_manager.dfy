/**
 * The location card of the profile and onboarding pages: the location state
 * it starts from, how it follows the location its parent passes in, how the
 * search dialog replaces it, and the reports it sends its parent. Numbers
 * are only copied, compared and tested for zero, so they are `real`s.
 */
module LocationManager {
  import opened Wrappers

  /** `LocationState`: the coordinates, the place name and the service radius in km. */
  datatype LocationState = LocationState(latitude: real, longitude: real, location: string, serviceRadius: real)

  /** `Partial<LocationState>`: a field that is `None` is missing, `null` or `undefined`. */
  datatype PartialLocation = PartialLocation(
    latitude: Option<real>, longitude: Option<real>, location: Option<string>, serviceRadius: Option<real>)

  /** What the search dialog hands back. */
  datatype Selection = Selection(lat: real, lng: real, name: string, serviceRadius: real)

  const DefaultLatitude: real := 45.815399
  const DefaultLongitude: real := 15.966568
  const DefaultRadius: real := 20.0

  const Defaults := LocationState(DefaultLatitude, DefaultLongitude, "", DefaultRadius)

  /** `x || d` on a number: a missing value or 0 gives the default. */
  function NumberOr(x: Option<real>, d: real): (r: real)
    ensures r == d || (x.Some? && r == x.value && r != 0.0)
    ensures x.Some? && x.value != 0.0 ==> r == x.value
  {
    if x.Some? && x.value != 0.0 then x.value else d
  }

  /** `x || d` on a string: a missing value or "" gives the default. */
  function TextOr(x: Option<string>, d: string): (r: string)
    ensures r == d || (x.Some? && r == x.value && r != [])
    ensures x.Some? && x.value != [] ==> r == x.value
  {
    if x.Some? && x.value != [] then x.value else d
  }

  /** The state's initial value: each field of `initialLocation` that is truthy, else its default. */
  function Initial(initialLocation: Option<PartialLocation>): LocationState {
    match initialLocation
    case None => Defaults
    case Some(p) => LocationState(
      NumberOr(p.latitude, DefaultLatitude),
      NumberOr(p.longitude, DefaultLongitude),
      TextOr(p.location, ""),
      NumberOr(p.serviceRadius, DefaultRadius))
  }

  /** `x ?? d`: only a missing value gives the fallback. */
  function Coalesce<T>(x: Option<T>, d: T): T {
    if x.Some? then x.value else d
  }

  /** The merged location of the sync effect: each field of `p` that is present, else the previous one. */
  function Merge(p: PartialLocation, prev: LocationState): LocationState {
    LocationState(
      Coalesce(p.latitude, prev.latitude),
      Coalesce(p.longitude, prev.longitude),
      Coalesce(p.location, prev.location),
      Coalesce(p.serviceRadius, prev.serviceRadius))
  }

  /** The initial state has non-zero coordinates and radius; with nothing passed in it is the defaults. */
  lemma InitialShape(initialLocation: Option<PartialLocation>)
    ensures var s := Initial(initialLocation);
      s.latitude != 0.0 && s.longitude != 0.0 && s.serviceRadius != 0.0
    ensures initialLocation.None? ==> Initial(initialLocation) == Defaults
  {
  }

  /** A number is present but 0, which `||` replaces and `??` keeps. */
  predicate HasZeroNumber(p: PartialLocation) {
    p.latitude == Some(0.0) || p.longitude == Some(0.0) || p.serviceRadius == Some(0.0)
  }

  /**
   * Initialisation and sync disagree exactly on a present 0: the first sync
   * after mounting changes the state if and only if the parent passed a 0
   * coordinate or radius. (A "" name is replaced by the default "", so it
   * makes no difference.)
   */
  lemma FirstSyncChanges(p: PartialLocation)
    ensures Merge(p, Initial(Some(p))) != Initial(Some(p)) <==> HasZeroNumber(p)
  {
  }

  /** The merge keeps the previous state exactly when every present field already equals it. */
  lemma MergeUnchanged(p: PartialLocation, prev: LocationState)
    ensures Merge(p, prev) == prev <==>
      (p.latitude.Some? ==> p.latitude.value == prev.latitude) &&
      (p.longitude.Some? ==> p.longitude.value == prev.longitude) &&
      (p.location.Some? ==> p.location.value == prev.location) &&
      (p.serviceRadius.Some? ==> p.serviceRadius.value == prev.serviceRadius)
  {
  }

  /** Merging the same input twice is merging it once. */
  lemma MergeIdempotent(p: PartialLocation, prev: LocationState)
    ensures Merge(p, Merge(p, prev)) == Merge(p, prev)
  {
  }

  /** A fully given input replaces the state whatever it was. */
  lemma MergeComplete(l: LocationState, prev: LocationState)
    ensures Merge(PartialLocation(Some(l.latitude), Some(l.longitude), Some(l.location), Some(l.serviceRadius)), prev) == l
  {
  }

  /** The state of the location card and what it has reported to its parent. */
  class LocationCard {
    var location: LocationState
    /** Each value passed to `onLocationDataChange`, in order. */
    var reports: seq<LocationState>
    /** Whether the parent passed an `onLocationDataChange` callback. */
    const notify: bool

    /** The parent has been told the current state, if it listens. */
    predicate Valid()
      reads this
    {
      notify ==> |reports| > 0 && reports[|reports| - 1] == location
    }

    /**
     * Mounting: the state starts from `Initial`, the report effect sends it,
     * and the sync effect then runs once on the same input.
     */
    constructor (initialLocation: Option<PartialLocation>, notify: bool)
      ensures Valid() && this.notify == notify
      ensures var start := Initial(initialLocation);
        location == (if initialLocation.Some? then Merge(initialLocation.value, start) else start) &&
        reports == (if !notify then [] else if location == start then [start] else [start, location])
    {
      this.notify := notify;
      location := Initial(initialLocation);
      reports := if notify then [Initial(initialLocation)] else [];
      new;
      Sync(initialLocation);
    }

    /**
     * The sync effect: with an input, the merged state replaces the current
     * one if any field differs, and is reported; otherwise nothing changes.
     */
    method Sync(initialLocation: Option<PartialLocation>)
      modifies this
      requires Valid()
      ensures Valid()
      ensures initialLocation.None? ==> location == old(location) && reports == old(reports)
      ensures initialLocation.Some? ==> location == Merge(initialLocation.value, old(location))
      ensures initialLocation.Some? ==>
        reports == old(reports) + if notify && location != old(location) then [location] else []
    {
      if initialLocation.Some? {
        var merged := Merge(initialLocation.value, location);
        if merged != location {
          location := merged;
          if notify {
            reports := reports + [merged];
          }
        }
      }
    }

    /** `handleLocationSelect`: the dialog's choice replaces the whole state, which is always reported. */
    method SelectLocation(choice: Selection)
      modifies this
      requires Valid()
      ensures Valid()
      ensures location == LocationState(choice.lat, choice.lng, choice.name, choice.serviceRadius)
      ensures reports == old(reports) + if notify then [location] else []
    {
      location := LocationState(choice.lat, choice.lng, choice.name, choice.serviceRadius);
      if notify {
        reports := reports + [location];
      }
    }
  }
}
