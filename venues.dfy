/**
 * The venue records of the calibration store and the pure rules the manager
 * applies to its list of venues: lookup by id (`Array.prototype.findIndex` and
 * `find`), removal by id (`filter`), the field merge of an update, JavaScript's
 * `Math.round` and the calibration factor arithmetic.
 */
module Venues {
  import opened Options

  /** One venue profile; `venueType` is the record's `type` property. */
  datatype Venue = Venue(
    id: string,
    name: string,
    venueType: string,
    calibrationFactor: real,
    lastUpdated: string,
    notes: Option<string>)

  /** What `addVenue` is given: a venue without `id` and `lastUpdated`. */
  datatype VenueFields = VenueFields(
    name: string,
    venueType: string,
    calibrationFactor: real,
    notes: Option<string>)

  /** What `updateVenue` is given: each property either absent (None) or a new value. */
  datatype VenueUpdate = VenueUpdate(
    name: Option<string>,
    venueType: Option<string>,
    calibrationFactor: Option<real>,
    notes: Option<string>)

  /** The persisted document: the ordered venue list and an optional sync timestamp. */
  datatype Profile = Profile(venues: seq<Venue>, lastSync: Option<string>)

  /** `{ venues: [] }`, the profile before anything is loaded and after a failed load. */
  const EmptyProfile := Profile([], None)

  // ---------------------------------------------------------------- lookup

  /** True when some venue of `vs` carries `id`. */
  predicate HasId(vs: seq<Venue>, id: string) {
    exists j :: 0 <= j < |vs| && vs[j].id == id
  }

  /** `vs.findIndex(v => v.id === id)`: the first index carrying `id`, or -1. */
  function FindIndex(vs: seq<Venue>, id: string): (k: int)
    ensures -1 <= k < |vs|
    ensures k == -1 <==> !HasId(vs, id)
    ensures 0 <= k ==> vs[k].id == id && forall j :: 0 <= j < k ==> vs[j].id != id
  {
    if vs == [] then -1
    else if vs[0].id == id then 0
    else
      var k := FindIndex(vs[1..], id);
      assert forall j :: 1 <= j < |vs| ==> vs[j] == vs[1..][j - 1];
      if k == -1 then -1 else k + 1
  }

  /** `vs.find(v => v.id === id)`: the first venue carrying `id`, if any. */
  function Find(vs: seq<Venue>, id: string): (r: Option<Venue>)
    ensures r.None? <==> !HasId(vs, id)
    ensures r.Some? ==> r.value.id == id && r.value in vs
    ensures r.Some? ==> exists k :: 0 <= k < |vs| && vs[k] == r.value && forall j :: 0 <= j < k ==> vs[j].id != id
  {
    var k := FindIndex(vs, id);
    if k == -1 then None else Some(vs[k])
  }

  // ---------------------------------------------------------------- removal

  /** `vs.filter(v => v.id !== id)`. */
  function Without(vs: seq<Venue>, id: string): (r: seq<Venue>)
    ensures |r| <= |vs|
    ensures forall v :: v in r <==> v in vs && v.id != id
    ensures |r| == |vs| <==> !HasId(vs, id)
  {
    if vs == [] then []
    else
      var rest := Without(vs[1..], id);
      assert forall j :: 1 <= j < |vs| ==> vs[j] == vs[1..][j - 1];
      assert forall v :: v in vs <==> v == vs[0] || v in vs[1..];
      if vs[0].id == id then rest else [vs[0]] + rest
  }

  /** Filtering keeps the relative order: it distributes over concatenation. */
  lemma {:induction false} WithoutAppend(a: seq<Venue>, b: seq<Venue>, id: string)
    ensures Without(a + b, id) == Without(a, id) + Without(b, id)
  {
    if a == [] {
      assert a + b == b;
    } else {
      assert (a + b)[1..] == a[1..] + b;
      WithoutAppend(a[1..], b, id);
    }
  }

  /** Removing an id that no venue carries leaves the list as it was. */
  lemma {:induction false} WithoutAbsent(vs: seq<Venue>, id: string)
    requires !HasId(vs, id)
    ensures Without(vs, id) == vs
  {
    if vs != [] {
      assert !HasId(vs[1..], id) by {
        forall j | 0 <= j < |vs[1..]| ensures vs[1..][j].id != id {
          assert vs[1..][j] == vs[j + 1];
        }
      }
      WithoutAbsent(vs[1..], id);
      assert vs == [vs[0]] + vs[1..];
    }
  }

  /** After removal no venue carries `id`, and the lookup of every other id is as before. */
  lemma {:induction false} FindAfterWithout(vs: seq<Venue>, id: string, other: string)
    ensures Find(Without(vs, id), id).None?
    ensures other != id ==> Find(Without(vs, id), other) == Find(vs, other)
  {
    if vs != [] {
      FindAfterWithout(vs[1..], id, other);
      assert Without(vs, id) == (if vs[0].id == id then [] else [vs[0]]) + Without(vs[1..], id);
      assert vs == [vs[0]] + vs[1..];
      FindCons(vs[0], vs[1..], other);
      if vs[0].id != id {
        FindCons(vs[0], Without(vs[1..], id), other);
      }
    }
  }

  /** Lookup in a list with a given first element. */
  lemma FindCons(v: Venue, vs: seq<Venue>, id: string)
    ensures Find([v] + vs, id) == if v.id == id then Some(v) else Find(vs, id)
  {
    assert ([v] + vs)[1..] == vs;
  }

  // ---------------------------------------------------------------- add and update

  /** A venue without `id` and `lastUpdated`: the `Omit<Venue, 'id' | 'lastUpdated'>` view. */
  function FieldsOf(v: Venue): VenueFields {
    VenueFields(v.name, v.venueType, v.calibrationFactor, v.notes)
  }

  /** The record `addVenue` builds: the caller's fields, the fresh id and the timestamp. */
  function NewVenue(fields: VenueFields, id: string, now: string): (v: Venue)
    ensures FieldsOf(v) == fields
    ensures v.id == id && v.lastUpdated == now
  {
    Venue(id, fields.name, fields.venueType, fields.calibrationFactor, now, fields.notes)
  }

  /** Appending a venue whose id is fresh makes it the one found under that id. */
  lemma FindAfterAppendFresh(vs: seq<Venue>, v: Venue)
    requires !HasId(vs, v.id)
    ensures Find(vs + [v], v.id) == Some(v)
  {
    assert (vs + [v])[|vs|] == v;
  }

  /**
   * Appending a venue whose id is already taken (two adds within one millisecond)
   * leaves it unreachable: the lookup still finds the older venue.
   */
  lemma FindAfterAppendTaken(vs: seq<Venue>, v: Venue)
    requires HasId(vs, v.id)
    ensures Find(vs + [v], v.id) == Find(vs, v.id)
  {
    var k := FindIndex(vs, v.id);
    assert (vs + [v])[k] == vs[k];
    assert forall j :: 0 <= j < k ==> (vs + [v])[j] == vs[j];
    assert forall j :: 0 <= j < |vs| ==> (vs + [v])[j] == vs[j];
  }

  /** Appending never changes the lookup of an id other than the new venue's. */
  lemma FindAfterAppendOther(vs: seq<Venue>, v: Venue, other: string)
    requires other != v.id
    ensures Find(vs + [v], other) == Find(vs, other)
  {
    assert forall j :: 0 <= j < |vs| ==> (vs + [v])[j] == vs[j];
    assert HasId(vs + [v], other) ==> HasId(vs, other);
  }

  /** `{ ...v, ...u, lastUpdated: now }`: present properties of `u` win, the id stays. */
  function Merge(v: Venue, u: VenueUpdate, now: string): (r: Venue)
    ensures r.id == v.id && r.lastUpdated == now
    ensures u.name.Some? ==> r.name == u.name.value
    ensures u.name.None? ==> r.name == v.name
    ensures u.venueType.Some? ==> r.venueType == u.venueType.value
    ensures u.venueType.None? ==> r.venueType == v.venueType
    ensures u.calibrationFactor.Some? ==> r.calibrationFactor == u.calibrationFactor.value
    ensures u.calibrationFactor.None? ==> r.calibrationFactor == v.calibrationFactor
    ensures u.notes.Some? ==> r.notes == u.notes
    ensures u.notes.None? ==> r.notes == v.notes
  {
    Venue(
      v.id,
      u.name.GetOr(v.name),
      u.venueType.GetOr(v.venueType),
      u.calibrationFactor.GetOr(v.calibrationFactor),
      now,
      if u.notes.Some? then u.notes else v.notes)
  }

  /** An update that carries only a factor changes only the factor and the timestamp. */
  lemma MergeFactorOnly(v: Venue, f: real, now: string)
    ensures Merge(v, VenueUpdate(None, None, Some(f), None), now)
         == v.(calibrationFactor := f, lastUpdated := now)
  {
  }

  /** Applying the same update twice is the same as applying it once, at the later time. */
  lemma MergeTwice(v: Venue, u: VenueUpdate, t1: string, t2: string)
    ensures Merge(Merge(v, u, t1), u, t2) == Merge(v, u, t2)
  {
  }

  /**
   * Replacing the first venue carrying `id` by its merge keeps that venue
   * reachable under `id`, as the merged record, and every other id's lookup unchanged.
   */
  lemma FindAfterUpdate(vs: seq<Venue>, id: string, u: VenueUpdate, now: string, other: string)
    requires HasId(vs, id)
    ensures var k := FindIndex(vs, id);
            var ws := vs[k := Merge(vs[k], u, now)];
            Find(ws, id) == Some(Merge(vs[k], u, now)) && (other != id ==> Find(ws, other) == Find(vs, other))
  {
    var k := FindIndex(vs, id);
    var ws := vs[k := Merge(vs[k], u, now)];
    assert forall j :: 0 <= j < |vs| && j != k ==> ws[j] == vs[j];
    assert ws[k].id == id;
    if other != id {
      assert forall j :: 0 <= j < |vs| ==> (ws[j].id == other <==> vs[j].id == other);
      assert HasId(ws, other) <==> HasId(vs, other);
      if HasId(vs, other) {
        var i := FindIndex(vs, other);
        var i' := FindIndex(ws, other);
        assert i' <= i && i <= i';
      }
    }
  }

  // ---------------------------------------------------------------- validity supplied by the caller

  /** The characters `String.prototype.trim` removes: white space and line terminators. */
  predicate IsWhitespace(c: char) {
    c == '\t' || c == '\n' || c == '\U{000B}' || c == '\U{000C}' || c == '\r' || c == ' '
    || c == '\U{00A0}' || c == '\U{1680}' || ('\U{2000}' <= c <= '\U{200A}') || c == '\U{2028}'
    || c == '\U{2029}' || c == '\U{202F}' || c == '\U{205F}' || c == '\U{3000}' || c == '\U{FEFF}'
  }

  /** `s` with its leading white space removed. */
  function TrimStart(s: string): (r: string)
    ensures |r| <= |s| && r == s[|s| - |r|..]
    ensures forall i :: 0 <= i < |s| - |r| ==> IsWhitespace(s[i])
    ensures r != [] ==> !IsWhitespace(r[0])
  {
    if s != [] && IsWhitespace(s[0]) then TrimStart(s[1..]) else s
  }

  /** `s` with its trailing white space removed. */
  function TrimEnd(s: string): (r: string)
    ensures |r| <= |s| && r == s[..|r|]
    ensures forall i :: |r| <= i < |s| ==> IsWhitespace(s[i])
    ensures r != [] ==> !IsWhitespace(r[|r| - 1])
  {
    if s != [] && IsWhitespace(s[|s| - 1]) then TrimEnd(s[..|s| - 1]) else s
  }

  /**
   * `s.trim()`: a contiguous piece of `s` that neither starts nor ends with
   * white space, and empty exactly when `s` is all white space.
   */
  function Trim(s: string): (r: string)
    ensures var a := |s| - |TrimStart(s)|;
            && a + |r| <= |s| && r == s[a..a + |r|]
            && forall i :: 0 <= i < |s| && (i < a || a + |r| <= i) ==> IsWhitespace(s[i])
    ensures r != [] ==> !IsWhitespace(r[0]) && !IsWhitespace(r[|r| - 1])
    ensures r == [] <==> forall i :: 0 <= i < |s| ==> IsWhitespace(s[i])
  {
    var t := TrimStart(s);
    var r := TrimEnd(t);
    assert r == s[|s| - |t|..|s| - |t| + |r|];
    forall i | |s| - |t| + |r| <= i < |s| ensures IsWhitespace(s[i]) {
      assert s[i] == t[i - (|s| - |t|)];
    }
    r
  }

  /**
   * What the calibration screen checks before it calls `addVenue` or
   * `updateVenue`: a positive factor and a name that is not all white space.
   */
  predicate FormAccepts(rawName: string, factor: real)
    ensures FormAccepts(rawName, factor) <==>
              factor > 0.0 && exists i :: 0 <= i < |rawName| && !IsWhitespace(rawName[i])
  {
    factor > 0.0 && Trim(rawName) != ""
  }

  /** The fields the screen passes once its check succeeds: every text trimmed. */
  function FormFields(rawName: string, rawType: string, factor: real, rawNotes: string): (f: VenueFields)
    ensures f.calibrationFactor == factor && f.notes.Some?
    ensures f.name == Trim(rawName) && f.venueType == Trim(rawType) && f.notes.value == Trim(rawNotes)
  {
    VenueFields(Trim(rawName), Trim(rawType), factor, Some(Trim(rawNotes)))
  }

  /** The same fields as an update: every property present, so it overwrites all of them. */
  function FormUpdate(rawName: string, rawType: string, factor: real, rawNotes: string): (u: VenueUpdate)
    ensures forall v: Venue, now: string :: FieldsOf(Merge(v, u, now)) == FormFields(rawName, rawType, factor, rawNotes)
  {
    VenueUpdate(Some(Trim(rawName)), Some(Trim(rawType)), Some(factor), Some(Trim(rawNotes)))
  }

  /** A venue the calibration screen could have produced: positive factor, non-empty name. */
  predicate WellFormed(v: Venue) {
    v.calibrationFactor > 0.0 && v.name != ""
  }

  /** With the screen's check done by the caller, adding keeps every venue well formed. */
  lemma AddKeepsWellFormed(vs: seq<Venue>, rawName: string, rawType: string, factor: real, rawNotes: string,
                           id: string, now: string)
    requires forall v :: v in vs ==> WellFormed(v)
    requires FormAccepts(rawName, factor)
    ensures forall v :: v in vs + [NewVenue(FormFields(rawName, rawType, factor, rawNotes), id, now)] ==> WellFormed(v)
  {
  }

  /** With the screen's check done by the caller, an update yields a well-formed venue, whatever it replaced. */
  lemma UpdateKeepsWellFormed(v: Venue, rawName: string, rawType: string, factor: real, rawNotes: string, now: string)
    requires FormAccepts(rawName, factor)
    ensures WellFormed(Merge(v, FormUpdate(rawName, rawType, factor, rawNotes), now))
  {
  }

  // ---------------------------------------------------------------- numbers

  /** JavaScript's `Math.round`: the nearest integer, halves rounded toward +infinity. */
  function Round(x: real): (r: int)
    ensures r as real - 0.5 <= x < r as real + 0.5
  {
    (x + 0.5).Floor
  }

  /** A whole number rounds to itself. */
  lemma RoundWhole(n: int)
    ensures Round(n as real) == n
  {
  }

  /** Rounding is monotone. */
  lemma RoundMonotone(x: real, y: real)
    requires x <= y
    ensures Round(x) <= Round(y)
  {
  }

  /**
   * `applyCalibration(venueId, count)` on the list `vs`: an absent or empty
   * `venueId` and an unknown id give `count` back; otherwise the count is
   * scaled by the first matching venue's factor and rounded.
   */
  function Calibrated(vs: seq<Venue>, venueId: Option<string>, count: int): (r: int)
    ensures venueId.None? || venueId.value == "" || !HasId(vs, venueId.value) ==> r == count
    ensures venueId.Some? && venueId.value != "" && HasId(vs, venueId.value) ==>
              var f := Find(vs, venueId.value).value.calibrationFactor;
              r as real - 0.5 <= count as real * f < r as real + 0.5
  {
    if venueId.None? || venueId.value == "" then count
    else match Find(vs, venueId.value)
      case None => count
      case Some(v) => Round(count as real * v.calibrationFactor)
  }

  /** Calibration gives the count back when no venue is selected, when the selected one is unknown, or when its factor is one. */
  lemma CalibratedUnchanged(vs: seq<Venue>, venueId: Option<string>, count: int)
    ensures venueId.None? || venueId == Some("") ==> Calibrated(vs, venueId, count) == count
    ensures venueId.Some? && !HasId(vs, venueId.value) ==> Calibrated(vs, venueId, count) == count
    ensures venueId.Some? && Find(vs, venueId.value).Some? && Find(vs, venueId.value).value.calibrationFactor == 1.0
            ==> Calibrated(vs, venueId, count) == count
  {
    if venueId.Some? && venueId.value != "" && Find(vs, venueId.value).Some? {
      RoundWhole(count);
    }
  }

  /** With positive factors (as the screen ensures), a non-negative count stays non-negative. */
  lemma CalibratedNonNegative(vs: seq<Venue>, venueId: Option<string>, count: int)
    requires forall v :: v in vs ==> WellFormed(v)
    requires 0 <= count
    ensures 0 <= Calibrated(vs, venueId, count)
  {
    if venueId.Some? && venueId.value != "" && Find(vs, venueId.value).Some? {
      var f := Find(vs, venueId.value).value.calibrationFactor;
      assert 0.0 <= count as real * f;
      RoundMonotone(0.0, count as real * f);
      RoundWhole(0);
    }
  }

  /** `suggestCalibrationFactor`: the factor that maps the detected count onto the actual one. */
  function SuggestCalibrationFactor(detectedCount: int, actualCount: int): (f: real)
    ensures detectedCount == 0 ==> f == 1.0
    ensures detectedCount != 0 ==> f * detectedCount as real == actualCount as real
  {
    if detectedCount == 0 then 1.0 else actualCount as real / detectedCount as real
  }

  /**
   * The suggested factor is a right inverse of calibration: a venue holding it
   * turns the detected count back into the actual count.
   */
  lemma SuggestedFactorCalibrates(vs: seq<Venue>, id: string, detectedCount: int, actualCount: int)
    requires detectedCount != 0 && id != ""
    requires Find(vs, id).Some?
    requires Find(vs, id).value.calibrationFactor == SuggestCalibrationFactor(detectedCount, actualCount)
    ensures Calibrated(vs, Some(id), detectedCount) == actualCount
  {
    var f := SuggestCalibrationFactor(detectedCount, actualCount);
    assert detectedCount as real * f == actualCount as real;
    RoundWhole(actualCount);
  }
}
