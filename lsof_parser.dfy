/** `LSOFParser.kt`: the tagged-line state machine (`parseLine`, `finish`), the
    field mutators of the `Field` table, and the per-pid record store
    (`storeRecord`). The functions give the meaning of one step on state
    values; the class `LSOFParser` and the method `ApplyMutator` do the same
    steps on a `ParseState` object and are proved to agree with them. */
module LsofParser {
  import opened Strings
  import opened FileRecords
  import opened ProcessRecords
  import opened Fields
  import opened ParseStates

  /** What `parseLine` gives back besides the state: either the record that a
      boundary completed (or none), or the exception a mutator threw. */
  datatype LineResult = Parsed(record: Option<ProcessRecord>) | FieldParseError(field: Field)

  /** A mutator's new state and whether it returned normally. */
  datatype Mutated = Mutated(state: StateValue, ok: bool)

  /** The new state and the result of one `parseLine`. */
  datatype Stepped = Stepped(state: StateValue, result: LineResult)

  /** The file a pending descriptor turns into. */
  function PendingFile(st: StateValue): FileRecord
    requires st.descriptor.Some?
  {
    FileRecord(st.descriptor.value, st.fileType.GetOr(Missing), st.name.GetOr(Missing))
  }

  /** The mutator of field `f` applied to the text `s`. `p` and `u` convert
      `s` with `toInt()`, which throws on a non-integer, leaving the state as
      it was. `f` flushes a pending file and then records the new descriptor. */
  function Mutate(st: StateValue, f: Field, s: string): (r: Mutated)
    ensures r.ok <==> (f != Pid && f != User) || ParseInt(s).Some?
    ensures !r.ok ==> r.state == st
    ensures r.state.initialized == st.initialized
    ensures f != File ==> r.state.record.files == st.record.files
    ensures f == File && st.descriptor.Some? ==>
      && r.state.record.files == st.record.files + [PendingFile(st)]
      && r.state.fileType == None && r.state.name == None
    ensures f == File && st.descriptor.None? ==>
      r.state == st.(descriptor := Some(s))
    ensures f == File ==> r.state.descriptor == Some(s) && r.state.record == st.record.(files := r.state.record.files)
    ensures f == Pid && r.ok ==> r.state == st.(record := st.record.(pid := ParseInt(s).value))
    ensures f == User && r.ok ==> r.state == st.(record := st.record.(user := ParseInt(s).value))
    ensures f == Command ==> r.state == st.(record := st.record.(command := s))
    ensures f == Type ==> r.state == st.(fileType := Some(s))
    ensures f == Name ==> r.state == st.(name := Some(s))
  {
    match f
    case Command => Mutated(st.(record := st.record.(command := s)), true)
    case Pid =>
      (match ParseInt(s)
       case Some(v) => Mutated(st.(record := st.record.(pid := v)), true)
       case None => Mutated(st, false))
    case User =>
      (match ParseInt(s)
       case Some(v) => Mutated(st.(record := st.record.(user := v)), true)
       case None => Mutated(st, false))
    case File =>
      var files := Flushed(st.record.files, st.descriptor, st.fileType, st.name);
      var pending := st.descriptor.Some?;
      Mutated(st.(record := st.record.(files := files),
                  descriptor := Some(s),
                  fileType := if pending then None else st.fileType,
                  name := if pending then None else st.name), true)
    case Type => Mutated(st.(fileType := Some(s)), true)
    case Name => Mutated(st.(name := Some(s)), true)
  }

  /** The record a boundary hands out: the one in progress, files sorted by name. */
  function Hydrated(r: ProcessRecord): ProcessRecord {
    r.(files := SortedByName(r.files))
  }

  /** `parseLine(line, state)`. */
  function Step(st: StateValue, line: string): (r: Stepped)
    // an unknown tag, or an empty line, changes nothing and yields nothing
    ensures FromPrefix(LinePrefix(line)).None? ==> r == Stepped(st, Parsed(None))
    // a known tag initializes the state, even when its mutator then throws
    ensures FromPrefix(LinePrefix(line)).Some? ==> r.state.initialized
    // only the mutators of `p` and `u` throw, on a value that is not an Int
    ensures r.result.FieldParseError? <==>
      (exists f :: f in {Pid, User} && FromPrefix(LinePrefix(line)) == Some(f) && ParseInt(LineValue(line)).None?)
    // a record comes out exactly at a `p` line after the state was initialized,
    // and it is the record in progress with its files sorted by name
    ensures r.result.Parsed? && r.result.record.Some? <==>
      LinePrefix(line) == 'p' && st.initialized && ParseInt(LineValue(line)).Some?
    ensures r.result.Parsed? && r.result.record.Some? ==>
      && r.result.record.value == st.record.(files := r.result.record.value.files)
      && multiset(r.result.record.value.files) == multiset(st.record.files)
      && (forall i, j :: 0 <= i < j < |r.result.record.value.files| ==>
            StrLe(r.result.record.value.files[i].name, r.result.record.value.files[j].name))
      // the boundary builds a fresh record holding only the new pid, and it
      // leaves the pending file fields as they were
      && r.state == st.(record := ProcessRecord(pid := ParseInt(LineValue(line)).value))
    // a record is only ever handed out by an initialized state
    ensures r.result.Parsed? && r.result.record.Some? ==> r.state.initialized
    // any other known line runs its field's mutator on the text after the
    // tag, on the state marked initialized, and hands out no record
    ensures FromPrefix(LinePrefix(line)).Some? && !(LinePrefix(line) == 'p' && st.initialized) ==>
      && r.state == Mutate(st.(initialized := true), FromPrefix(LinePrefix(line)).value, LineValue(line)).state
      && (r.result.Parsed? ==> r.result.record.None?)
    // a boundary whose pid is not an Int drops the record in progress
    ensures LinePrefix(line) == 'p' && st.initialized && ParseInt(LineValue(line)).None? ==>
      r.state == st.(record := ProcessRecord())
    // the error names the field of the line's tag
    ensures r.result.FieldParseError? ==>
      FromPrefix(LinePrefix(line)).Some? && r.result.field == FromPrefix(LinePrefix(line)).value
  {
    match FromPrefix(LinePrefix(line))
    case None => Stepped(st, Parsed(None))
    case Some(f) =>
      var boundary := f == Pid && st.initialized;
      var emitted := if boundary then Some(Hydrated(st.record)) else None;
      var reset := if boundary then st.(record := ProcessRecord()) else st;
      var m := Mutate(reset.(initialized := true), f, LineValue(line));
      if m.ok then Stepped(m.state, Parsed(emitted)) else Stepped(m.state, FieldParseError(f))
  }

  /** `finish(state)`: nothing for a state that never saw a known tag;
      otherwise the FILE mutator runs once more with `""` and the record in
      progress is returned as it is, files in arrival order. */
  function Finished(st: StateValue): (r: (StateValue, Option<ProcessRecord>))
    ensures r.1.None? <==> !st.initialized
    ensures !st.initialized ==> r.0 == st
    ensures st.initialized ==>
      && r.1 == Some(r.0.record)
      && r.0.record.files == Flushed(st.record.files, st.descriptor, st.fileType, st.name)
      && r.0.record == st.record.(files := r.0.record.files)
      && r.0.descriptor == Some("") && r.0.initialized
    // the flush clears type and name; with nothing pending they stay as they were
    ensures st.initialized && st.descriptor.Some? ==> r.0.fileType == None && r.0.name == None
    ensures st.initialized && st.descriptor.None? ==> r.0.fileType == st.fileType && r.0.name == st.name
  {
    if st.initialized then
      var m := Mutate(st, File, "");
      (m.state, Some(m.state.record))
    else
      (st, None)
  }

  /** `storeRecord(r)` on the map `records`: one record per pid; when the pid
      is already present with a different record, the one with more files
      wins, and a tie keeps the new one. */
  function Stored(records: map<int, ProcessRecord>, r: ProcessRecord): (m: map<int, ProcessRecord>)
    ensures m.Keys == records.Keys + {r.pid}
    ensures forall k :: k in records && k != r.pid ==> m[k] == records[k]
    ensures m[r.pid] == r || (r.pid in records && m[r.pid] == records[r.pid])
    ensures r.pid !in records ==> m[r.pid] == r
    ensures r.pid in records ==>
      |m[r.pid].files| == if |records[r.pid].files| > |r.files| then |records[r.pid].files| else |r.files|
    ensures r.pid in records && |records[r.pid].files| <= |r.files| ==> m[r.pid] == r
  {
    var toAdd :=
      if r.pid in records && records[r.pid] != r then
        var existing := records[r.pid];
        if |existing.files| > |r.files| then existing else r
      else r;
    records[r.pid := toAdd]
  }

  /** The Field table's mutators, run on a `ParseState` object. `ok` is false
      where the Kotlin mutator throws. */
  method ApplyMutator(f: Field, p: ParseState, s: string) returns (ok: bool)
    modifies p
    ensures Mutated(p.View(), ok) == Mutate(old(p.View()), f, s)
  {
    match f {
      case Command =>
        p.record := p.record.(command := s);
        ok := true;
      case Pid =>
        var v := ParseInt(s);
        ok := v.Some?;
        if ok {
          p.record := p.record.(pid := v.value);
        }
      case User =>
        var v := ParseInt(s);
        ok := v.Some?;
        if ok {
          p.record := p.record.(user := v.value);
        }
      case File =>
        // a descriptor already pending is completed into a file first
        if p.descriptor.Some? {
          p.record := p.record.(files := p.record.files +
            [FileRecord(p.descriptor.value, p.fileType.GetOr(Missing), p.name.GetOr(Missing))]);
          p.fileType := None;
          p.name := None;
        }
        p.descriptor := Some(s);
        ok := true;
      case Type =>
        p.fileType := Some(s);
        ok := true;
      case Name =>
        p.name := Some(s);
        ok := true;
    }
  }

  class LSOFParser {
    /** Only switches the diagnostic `compare` printout, which is not modelled. */
    const debug: bool
    var records: map<int, ProcessRecord>

    constructor (debug: bool)
      ensures this.debug == debug && records == map[]
    {
      this.debug := debug;
      records := map[];
    }

    method Finish(state: ParseState) returns (r: Option<ProcessRecord>)
      modifies state
      ensures (state.View(), r) == Finished(old(state.View()))
    {
      if state.initialized {
        // a last FILE mutation with an empty descriptor flushes the pending file
        var _ := ApplyMutator(File, state, "");
        r := Some(state.record);
      } else {
        r := None;
      }
    }

    method StoreRecord(newRecord: ProcessRecord)
      modifies this
      ensures records == Stored(old(records), newRecord)
    {
      var toAdd := newRecord;
      if newRecord.pid in records && records[newRecord.pid] != newRecord {
        var existing := records[newRecord.pid];
        if |existing.files| > |newRecord.files| {
          toAdd := existing;
        }
      }
      records := records[newRecord.pid := toAdd];
    }

    /** `parseLine(line, parseState)`: a missing state is replaced by
        `ParseState.new()`; the state given is updated in place and returned. */
    method ParseLine(line: string, parseState: ParseState?) returns (state: ParseState, result: LineResult)
      modifies parseState
      ensures parseState != null ==> state == parseState
      ensures parseState == null ==> fresh(state)
      ensures Stepped(state.View(), result) ==
        Step(if parseState == null then Initial else old(parseState.View()), line)
    {
      if parseState == null {
        state := new ParseState.New();
      } else {
        state := parseState;
      }
      var col := FromPrefix(LinePrefix(line));
      if col.Some? {
        // a `p` line after the state was initialized closes the record in progress
        var record := None;
        if col.value == Pid && state.initialized {
          record := Some(state.record.(files := SortedByName(state.record.files)));
          state.record := ProcessRecord();
        }
        state.initialized := true;
        var ok := ApplyMutator(col.value, state, LineValue(line));
        result := if ok then Parsed(record) else FieldParseError(col.value);
      } else {
        result := Parsed(None);
      }
    }
  }
}
