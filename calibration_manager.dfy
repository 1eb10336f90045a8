/**
 * The calibration store: the `CalibrationManager` class, its in-memory profile
 * and the one storage entry (key "calibration_profile") it reads and writes.
 *
 * Storage and JSON are abstract. The storage entry is a `Slot`: nothing (or an
 * empty string) stored, the text of a saved profile, or something that cannot be
 * read back. JSON text handed to `importProfile` is a `Text`: either what
 * `exportProfile` produced, or other text described by what `JSON.parse` makes
 * of it. Whether a write to storage succeeds is the `writeOk` parameter of every
 * operation that saves; a failed write is swallowed, as in the source.
 * Every operation runs to completion before the next one starts.
 */
module Calibration {
  import opened Options
  import opened Venues

  /** The storage key under which the profile document lives. */
  const StorageKey := "calibration_profile"

  /** What `getItem(StorageKey)` yields. */
  datatype Slot =
    | Absent               // null or "": nothing to load
    | Written(doc: Profile) // the text `saveProfile` wrote for `doc`
    | Unreadable           // the read throws, or the text does not parse

  /** What `JSON.parse` makes of a text handed to `importProfile`. */
  datatype Parsed =
    | Unparsable           // JSON.parse throws, or yields null so that reading `venues` throws
    | NoVenues             // `venues` is missing or falsy
    | VenuesNotArray       // `venues` is present but not an array
    | Document(doc: Profile)

  /** A JSON text: one that `exportProfile` produced, or any other text. */
  datatype Text = Stringified(doc: Profile) | Other(parsed: Parsed)

  /** `JSON.parse`: the text of a stringified profile parses back to that profile. */
  function Parse(t: Text): (r: Parsed)
    ensures t.Stringified? ==> r == Document(t.doc)
    ensures t.Other? ==> r == t.parsed
  {
    match t
    case Stringified(p) => Document(p)
    case Other(r) => r
  }

  /** The profile held after `loadProfile` ran with `current` in memory and `slot` in storage. */
  function LoadResult(current: Profile, slot: Slot): (p: Profile)
    ensures slot.Absent? ==> p == current
    ensures slot.Written? ==> p == slot.doc
    ensures slot.Unreadable? ==> p.venues == [] && p.lastSync.None?
  {
    match slot
    case Absent => current
    case Written(p) => p
    case Unreadable => EmptyProfile
  }

  class CalibrationManager {
    var profile: Profile
    var loaded: bool
    /** The storage entry under `StorageKey`. */
    var slot: Slot

    /**
     * The profile every operation that starts with `ensureLoaded` works on:
     * the in-memory one once loaded, otherwise what loading would produce.
     */
    ghost function Current(): Profile
      reads this
    {
      if loaded then profile else LoadResult(profile, slot)
    }

    /** Memory and storage agree: a fresh process would load the same profile. */
    ghost predicate InSync()
      reads this
    {
      loaded && slot == Written(profile)
    }

    /**
     * The constructor starts a load without awaiting it; here that load is
     * `LoadProfile`, which may run at any point between operations.
     */
    constructor (stored: Slot)
      ensures profile == EmptyProfile && !loaded && slot == stored
    {
      profile := EmptyProfile;
      loaded := false;
      slot := stored;
    }

    /** `loadProfile`: read the entry; keep, replace or reset the profile; mark loaded. */
    method LoadProfile()
      modifies this`profile, this`loaded
      ensures loaded
      ensures slot.Absent? ==> profile == old(profile)
      ensures slot.Written? ==> profile == slot.doc
      ensures slot.Unreadable? ==> profile == EmptyProfile
    {
      match slot {
        case Absent =>
        case Written(p) =>
          profile := p;
        case Unreadable =>
          profile := EmptyProfile;
      }
      loaded := true;
    }

    /** `saveProfile`: write the whole profile under the key; a failed write changes nothing. */
    method SaveProfile(writeOk: bool)
      modifies this`slot
      ensures slot == if writeOk then Written(profile) else old(slot)
    {
      if writeOk {
        slot := Written(profile);
      }
    }

    /** `ensureLoaded`: load only when not yet loaded. */
    method EnsureLoaded()
      modifies this`profile, this`loaded
      ensures loaded && profile == old(Current())
      ensures old(loaded) ==> profile == old(profile)
    {
      if !loaded {
        LoadProfile();
      }
    }

    /** `getVenues`: a copy of the venue list, in order. */
    method GetVenues() returns (vs: seq<Venue>)
      modifies this`profile, this`loaded
      ensures loaded && profile == old(Current())
      ensures vs == profile.venues
    {
      EnsureLoaded();
      vs := profile.venues;
    }

    /** `getVenue`: the first venue with this id, or undefined. */
    method GetVenue(id: string) returns (r: Option<Venue>)
      modifies this`profile, this`loaded
      ensures loaded && profile == old(Current())
      ensures r == Find(profile.venues, id)
      ensures r.Some? <==> HasId(profile.venues, id)
    {
      EnsureLoaded();
      r := Find(profile.venues, id);
    }

    /** `addVenue`: append a record with the fresh id and timestamp, then save. */
    method AddVenue(fields: VenueFields, id: string, now: string, writeOk: bool) returns (v: Venue)
      modifies this
      ensures v == NewVenue(fields, id, now)
      ensures loaded
      ensures profile == old(Current()).(venues := old(Current()).venues + [v])
      ensures slot == if writeOk then Written(profile) else old(slot)
    {
      EnsureLoaded();
      v := NewVenue(fields, id, now);
      profile := profile.(venues := profile.venues + [v]);
      SaveProfile(writeOk);
    }

    /**
     * `updateVenue`: merge `updates` over the first venue with this id and save;
     * undefined, with nothing changed or saved, when no venue has the id.
     */
    method UpdateVenue(id: string, updates: VenueUpdate, now: string, writeOk: bool) returns (r: Option<Venue>)
      modifies this
      ensures loaded
      ensures r.None? <==> !HasId(old(Current()).venues, id)
      ensures r.None? ==> profile == old(Current()) && slot == old(slot)
      ensures r.Some? ==>
                var vs := old(Current()).venues;
                var k := FindIndex(vs, id);
                && r.value == Merge(vs[k], updates, now)
                && profile == old(Current()).(venues := vs[k := r.value])
                && slot == if writeOk then Written(profile) else old(slot)
    {
      EnsureLoaded();
      var k := FindIndex(profile.venues, id);
      if k == -1 {
        return None;
      }
      var updated := Merge(profile.venues[k], updates, now);
      profile := profile.(venues := profile.venues[k := updated]);
      SaveProfile(writeOk);
      r := Some(updated);
    }

    /** `deleteVenue`: drop every venue with this id; save and answer true iff one was dropped. */
    method DeleteVenue(id: string, writeOk: bool) returns (removed: bool)
      modifies this
      ensures loaded
      ensures profile == old(Current()).(venues := Without(old(Current()).venues, id))
      ensures removed <==> HasId(old(Current()).venues, id)
      ensures removed <==> |profile.venues| < |old(Current()).venues|
      ensures slot == if removed && writeOk then Written(profile) else old(slot)
    {
      EnsureLoaded();
      var initialLength := |profile.venues|;
      profile := profile.(venues := Without(profile.venues, id));
      if |profile.venues| != initialLength {
        SaveProfile(writeOk);
        return true;
      }
      return false;
    }

    /**
     * `applyCalibration`: returns before loading when `venueId` is absent or
     * empty; otherwise loads and calibrates against the venue list.
     */
    method ApplyCalibration(venueId: Option<string>, count: int) returns (r: int)
      modifies this`profile, this`loaded
      ensures r == Calibrated(old(Current()).venues, venueId, count)
      ensures venueId.None? || venueId == Some("") ==> r == count && profile == old(profile) && loaded == old(loaded)
      ensures venueId.Some? && venueId != Some("") ==> loaded && profile == old(Current())
    {
      if venueId.None? || venueId.value == "" {
        return count;
      }
      EnsureLoaded();
      var venue := Find(profile.venues, venueId.value);
      if venue.None? {
        return count;
      }
      r := Round(count as real * venue.value.calibrationFactor);
    }

    /** `exportProfile`: the JSON text of the whole profile. */
    method ExportProfile() returns (t: Text)
      modifies this`profile, this`loaded
      ensures loaded && profile == old(Current())
      ensures Parse(t) == Document(profile)
    {
      EnsureLoaded();
      t := Stringified(profile);
    }

    /**
     * `importProfile`: accept the parsed document only when `venues` is an array,
     * then replace the profile and save. It does not wait for loading and does
     * not mark the profile loaded.
     */
    method ImportProfile(t: Text, writeOk: bool) returns (ok: bool)
      modifies this`profile, this`slot
      ensures ok <==> Parse(t).Document?
      ensures !ok ==> profile == old(profile) && slot == old(slot)
      ensures ok ==> profile == Parse(t).doc && slot == if writeOk then Written(profile) else old(slot)
    {
      var parsed := Parse(t);
      if !parsed.Document? {
        return false;
      }
      profile := parsed.doc;
      SaveProfile(writeOk);
      return true;
    }
  }

  /** With a successful write, every mutation leaves memory and storage in agreement. */
  method MutationsKeepInSync(m: CalibrationManager, fields: VenueFields, id: string, now: string, u: VenueUpdate)
    modifies m
    ensures m.InSync()
  {
    var v := m.AddVenue(fields, id, now, true);
    assert m.InSync();
    ghost var vs := m.Current().venues;
    assert vs[|vs| - 1] == v;
    var r := m.UpdateVenue(v.id, u, now, true);
    assert m.profile.venues[FindIndex(vs, v.id)].id == v.id;
    var removed := m.DeleteVenue(v.id, true);
    assert removed;
  }

  /**
   * Loading what a successful save wrote gives the saved profile back: a
   * successful save followed by a load leaves memory as it was.
   */
  method SaveThenLoad(m: CalibrationManager)
    modifies m
    ensures m.InSync() && m.profile == old(m.profile)
  {
    m.SaveProfile(true);
    m.LoadProfile();
  }

  /** Importing what was just exported leaves the venue list as it was. */
  method ExportThenImport(m: CalibrationManager, writeOk: bool)
    modifies m
    ensures m.loaded && m.profile == old(m.Current())
  {
    var t := m.ExportProfile();
    var ok := m.ImportProfile(t, writeOk);
    assert ok;
  }

  /**
   * A venue with factor 2.0 turns a raw count of 40 into 80; once deleted,
   * the same id leaves the count at 40.
   */
  method StadiumScenario(m: CalibrationManager, id: string, now: string, writeOk: bool) returns (before: int, after: int)
    requires id != "" && !HasId(m.Current().venues, id)
    modifies m
    ensures before == 80 && after == 40
  {
    var v := m.AddVenue(VenueFields("Stadium A", "stadium", 2.0, None), id, now, writeOk);
    FindAfterAppendFresh(old(m.Current()).venues, v);
    before := m.ApplyCalibration(Some(id), 40);
    var _ := m.DeleteVenue(id, writeOk);
    FindAfterWithout(old(m.Current()).venues + [v], id, id);
    after := m.ApplyCalibration(Some(id), 40);
  }
}
