/**
  The best-time record store of CamelCube (the `Data` class of main.py).

  The store lives in a JSON file `data.json` with two slots, `record_now`
  (the current best time) and `record_before` (the best time it replaced).
  Each slot holds a `time` (a number, or `null` when no time is recorded)
  and a `code`, an integrity tag computed from the time. Every entry point
  first rebuilds a missing or malformed file and then resets every slot
  whose code does not match its time, writing the repaired file back.

  The file is modelled as an abstract value and every operation as a pure
  function from the file before to the file after. The tag function
  (Python's `hash`) is a parameter: any deterministic map from times to
  integers.
 */
module RecordStore {
  import opened Wrappers

  /** A stored time in seconds: `None` is JSON `null`, no record yet. */
  type Time = Option<real>

  /** The integrity tag function. */
  type TagFn = Time -> int

  /** A well-formed slot of the file. */
  datatype Slot = Slot(time: Time, code: int)

  /** The content of a well-formed file. */
  datatype Store = Store(now: Slot, before: Slot)

  /** A slot object as parsed; `None` in a field means the key is missing. */
  datatype RawSlot = RawSlot(time: Option<Time>, code: Option<int>)

  /**
    What reading `data.json` can yield: no file, decodable text that is not JSON,
    or a JSON object whose top-level keys `record_now` and `record_before`
    may each be missing.
   */
  datatype File =
    | Missing
    | Unparseable
    | Parsed(recordNow: Option<RawSlot>, recordBefore: Option<RawSlot>)

  /** What a read of the current best returns, with the file it leaves behind. */
  datatype Read = Read(file: File, best: Time)

  // ---------------------------------------------------------------------
  // Shape of the file
  // ---------------------------------------------------------------------

  predicate SlotPresent(r: Option<RawSlot>) {
    r.Some? && r.value.time.Some? && r.value.code.Some?
  }

  /** All four keys `_check_file` looks up are present. */
  predicate WellFormed(f: File) {
    f.Parsed? && SlotPresent(f.recordNow) && SlotPresent(f.recordBefore)
  }

  function LoadSlot(r: Option<RawSlot>): Slot
    requires SlotPresent(r)
  {
    Slot(r.value.time.value, r.value.code.value)
  }

  /** The two slots of a well-formed file. */
  function Load(f: File): Store
    requires WellFormed(f)
  {
    Store(LoadSlot(f.recordNow), LoadSlot(f.recordBefore))
  }

  function EncodeSlot(s: Slot): Option<RawSlot> {
    Some(RawSlot(Some(s.time), Some(s.code)))
  }

  /** The file `json.dump` writes for a store. */
  function Encode(s: Store): (f: File)
    ensures WellFormed(f)
    ensures Load(f) == s
  {
    Parsed(EncodeSlot(s.now), EncodeSlot(s.before))
  }

  /** Loading and encoding are inverse on well-formed files. */
  lemma EncodeLoad(f: File)
    requires WellFormed(f)
    ensures Encode(Load(f)) == f
  {
  }

  // ---------------------------------------------------------------------
  // Integrity
  // ---------------------------------------------------------------------

  /** A slot whose code is the tag of its time. */
  predicate Intact(s: Slot, tag: TagFn) {
    s.code == tag(s.time)
  }

  predicate Healthy(s: Store, tag: TagFn) {
    Intact(s.now, tag) && Intact(s.before, tag)
  }

  /** A slot with no time, tagged with the tag of no time. */
  function EmptySlot(tag: TagFn): Slot {
    Slot(None, tag(None))
  }

  /** The store `_check_file` writes when it rebuilds the file. */
  function FreshStore(tag: TagFn): Store {
    Store(EmptySlot(tag), EmptySlot(tag))
  }

  /**
    `_check_file`: a missing, unparseable or incomplete file is replaced by
    one with both slots empty; a complete file is left as it is.
   */
  function CheckFile(f: File, tag: TagFn): (r: File)
    ensures WellFormed(r)
    ensures r == f <==> WellFormed(f)
    ensures !WellFormed(f) ==> Load(r) == FreshStore(tag) && Healthy(Load(r), tag)
  {
    if WellFormed(f) then f else Encode(FreshStore(tag))
  }

  /** One of the two checks of `_check_times`. */
  function CheckSlot(s: Slot, tag: TagFn): (r: Slot)
    ensures Intact(r, tag)
    ensures r == s <==> Intact(s, tag)
    ensures r != s ==> r.time == None
  {
    if tag(s.time) != s.code then EmptySlot(tag) else s
  }

  /**
    Both checks of `_check_times`: each slot is reset exactly when it is not
    intact, independently of the other slot.
   */
  function Heal(s: Store, tag: TagFn): (r: Store)
    ensures Healthy(r, tag)
    ensures r == s <==> Healthy(s, tag)
    ensures r.now == s.now <==> Intact(s.now, tag)
    ensures r.now != s.now ==> r.now == EmptySlot(tag)
    ensures r.before == s.before <==> Intact(s.before, tag)
    ensures r.before != s.before ==> r.before == EmptySlot(tag)
  {
    Store(CheckSlot(s.now, tag), CheckSlot(s.before, tag))
  }

  /**
    `_check_times`: the store it writes back to the file. A slot of the
    result holds a time other than `None` only if that very slot was intact
    in a well-formed file.
   */
  function CheckTimes(f: File, tag: TagFn): (r: Store)
    ensures Healthy(r, tag)
    ensures WellFormed(f) && Healthy(Load(f), tag) ==> r == Load(f)
    ensures !WellFormed(f) ==> r == FreshStore(tag)
    ensures r.now.time != None ==> WellFormed(f) && Intact(Load(f).now, tag) && r.now == Load(f).now
    ensures r.before.time != None ==> WellFormed(f) && Intact(Load(f).before, tag) && r.before == Load(f).before
    ensures WellFormed(f) && Intact(Load(f).now, tag) ==> r.now == Load(f).now
    ensures WellFormed(f) && Intact(Load(f).before, tag) ==> r.before == Load(f).before
  {
    Heal(Load(CheckFile(f, tag)), tag)
  }

  /** The file as `_check_times` leaves it. */
  function Checked(f: File, tag: TagFn): File {
    Encode(CheckTimes(f, tag))
  }

  /** Running `_check_times` a second time changes nothing. */
  lemma CheckTimesIdempotent(f: File, tag: TagFn)
    ensures CheckTimes(Checked(f, tag), tag) == CheckTimes(f, tag)
    ensures Checked(Checked(f, tag), tag) == Checked(f, tag)
  {
  }

  /** A file that is well-formed and healthy is a fixed point of `_check_times`. */
  lemma CheckedHealthyFile(f: File, tag: TagFn)
    requires WellFormed(f) && Healthy(Load(f), tag)
    ensures Checked(f, tag) == f
  {
    EncodeLoad(f);
  }

  // ---------------------------------------------------------------------
  // Entry points
  // ---------------------------------------------------------------------

  /** `Data.__init__`: repairs the file and changes nothing else. */
  function Open(f: File, tag: TagFn): (r: File)
    ensures WellFormed(r) && Healthy(Load(r), tag)
    ensures Load(r) == CheckTimes(f, tag)
    ensures WellFormed(f) && Healthy(Load(f), tag) ==> r == f
  {
    Checked(f, tag)
  }

  /**
    `get_record_now`: the current best after the integrity check. A time is
    reported only if it is the intact `record_now` time of a well-formed
    file, and such a time is always reported; the file is left repaired.
   */
  function GetRecordNow(f: File, tag: TagFn): (r: Read)
    ensures WellFormed(r.file) && Healthy(Load(r.file), tag)
    ensures Load(r.file) == CheckTimes(f, tag)
    ensures r.best == Load(r.file).now.time
    ensures r.best != None ==> WellFormed(f) && Intact(Load(f).now, tag) && r.best == Load(f).now.time
    ensures WellFormed(f) && Intact(Load(f).now, tag) ==> r.best == Load(f).now.time
  {
    var g := Checked(f, tag);
    Read(g, Load(g).now.time)
  }

  /** The current best, as every reader sees it. */
  function Best(f: File, tag: TagFn): Time {
    GetRecordNow(f, tag).best
  }

  /** Reading twice yields the same best and leaves the same file. */
  lemma ReadIsStable(f: File, tag: TagFn)
    ensures GetRecordNow(GetRecordNow(f, tag).file, tag) == GetRecordNow(f, tag)
  {
    CheckTimesIdempotent(f, tag);
  }

  /**
    `set_new_record`: the new time becomes `record_now`, the checked
    previous best becomes `record_before`, both with fresh tags; whatever
    `record_before` held before is gone.
   */
  function SetNewRecord(f: File, x: real, tag: TagFn): (r: File)
    ensures WellFormed(r) && Healthy(Load(r), tag)
    ensures Load(r).now.time == Some(x)
    ensures Load(r).before.time == Best(f, tag)
  {
    var checked := Checked(f, tag);
    var last := GetRecordNow(checked, tag);
    ReadIsStable(f, tag);
    Encode(Store(Slot(Some(x), tag(Some(x))), Slot(last.best, tag(last.best))))
  }

  /** Round trip: the best read right after `set_new_record(x)` is `x`. */
  lemma SetThenGet(f: File, x: real, tag: TagFn)
    ensures Best(SetNewRecord(f, x, tag), tag) == Some(x)
    ensures GetRecordNow(SetNewRecord(f, x, tag), tag).file == SetNewRecord(f, x, tag)
  {
    var r := SetNewRecord(f, x, tag);
    CheckedHealthyFile(r, tag);
  }

  /** Two updates in a row: the first value is shifted into `record_before`. */
  lemma SetTwiceShifts(f: File, x: real, y: real, tag: TagFn)
    ensures Load(SetNewRecord(SetNewRecord(f, x, tag), y, tag)).now.time == Some(y)
    ensures Load(SetNewRecord(SetNewRecord(f, x, tag), y, tag)).before.time == Some(x)
  {
    SetThenGet(f, x, tag);
  }

  /**
    The result of `set_new_record` depends on the old file only through its
    checked current best: the old `record_before` is discarded.
   */
  lemma SetForgetsBefore(f: File, g: File, x: real, tag: TagFn)
    requires Best(f, tag) == Best(g, tag)
    ensures SetNewRecord(f, x, tag) == SetNewRecord(g, x, tag)
  {
    var r, s := SetNewRecord(f, x, tag), SetNewRecord(g, x, tag);
    EncodeLoad(r);
    EncodeLoad(s);
  }

  /**
    Self-healing: a `record_now` whose code does not match its time reads
    as no record, and the file is rewritten with that slot empty while an
    intact `record_before` survives.
   */
  lemma TamperedCurrentReadsAbsent(f: File, tag: TagFn)
    requires WellFormed(f) && !Intact(Load(f).now, tag)
    ensures Best(f, tag) == None
    ensures Load(GetRecordNow(f, tag).file).now == EmptySlot(tag)
    ensures Intact(Load(f).before, tag) ==> Load(GetRecordNow(f, tag).file).before == Load(f).before
  {
  }

  /** A missing or malformed file reads as no record. */
  lemma MalformedReadsAbsent(f: File, tag: TagFn)
    requires !WellFormed(f)
    ensures Best(f, tag) == None
    ensures Load(GetRecordNow(f, tag).file) == FreshStore(tag)
  {
  }
}
