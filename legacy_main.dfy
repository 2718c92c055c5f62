/** The older parser of `Main.kt`: its own `parseLine`, `finish`, the `Col`
    table's mutators, its own `ProcessRecord` (pid 0 by default, user kept as
    a string, no parent pid) and the loop body of `main` that stores every
    record under its pid, the later one replacing the earlier. */
module LegacyMain {
  import opened Strings
  import opened FileRecords
  import opened Fields

  /** `ProcessRecord` of `Main.kt`: `ProcessRecord()` has pid 0, command "",
      user "" and no files. */
  datatype ProcessRecord = ProcessRecord(
    pid: int := 0,
    command: string := "",
    user: string := "",
    files: seq<FileRecord> := [])

  /** The five fields of `Main.kt`'s `ParseState`. */
  datatype StateValue = StateValue(
    record: ProcessRecord,
    initialized: bool,
    descriptor: Option<string>,
    fileType: Option<string>,
    name: Option<string>)

  const Initial: StateValue := StateValue(ProcessRecord(), false, None, None, None)

  class ParseState {
    var record: ProcessRecord
    var initialized: bool
    var descriptor: Option<string>
    var fileType: Option<string>
    var name: Option<string>

    function View(): StateValue
      reads this
    {
      StateValue(record, initialized, descriptor, fileType, name)
    }

    /** `ParseState.new()`. */
    constructor New()
      ensures View() == Initial
      ensures record.pid == 0 && record.command == "" && record.user == "" && record.files == []
    {
      record := ProcessRecord();
      initialized := false;
      descriptor, fileType, name := None, None, None;
    }
  }

  datatype LineResult = Parsed(record: Option<ProcessRecord>) | FieldParseError(field: Field)
  datatype Mutated = Mutated(state: StateValue, ok: bool)
  datatype Stepped = Stepped(state: StateValue, result: LineResult)

  /** The file a pending descriptor turns into. */
  function PendingFile(st: StateValue): FileRecord
    requires st.descriptor.Some?
  {
    FileRecord(st.descriptor.value, st.fileType.GetOr(Missing), st.name.GetOr(Missing))
  }

  /** The `Col` mutators. Only `p` can throw; `u` keeps the raw text. */
  function Mutate(st: StateValue, f: Field, s: string): (r: Mutated)
    ensures r.ok <==> f != Pid || ParseInt(s).Some?
    ensures !r.ok ==> r.state == st
    ensures r.state.initialized == st.initialized
    ensures f != File ==> r.state.record.files == st.record.files
    ensures f == File && st.descriptor.Some? ==>
      && r.state.record.files == st.record.files + [PendingFile(st)]
      && r.state.fileType == None && r.state.name == None
    ensures f == File && st.descriptor.None? ==> r.state == st.(descriptor := Some(s))
    ensures f == File ==> r.state.descriptor == Some(s) && r.state.record == st.record.(files := r.state.record.files)
    ensures f == Pid && r.ok ==> r.state == st.(record := st.record.(pid := ParseInt(s).value))
    ensures f == User ==> r.state == st.(record := st.record.(user := s))
    ensures f == Command ==> r.state == st.(record := st.record.(command := s))
    ensures f == Type ==> r.state == st.(fileType := Some(s))
    ensures f == Name ==> r.state == st.(name := Some(s))
  {
    match f
    case Command => Mutated(st.(record := st.record.(command := s)), true)
    case Pid =>
      (match ParseInt(s)
       case Some(v) => Mutated(st.(record := st.record.(pid := v)), true)
       case None => Mutated(st, false))
    case User => Mutated(st.(record := st.record.(user := s)), true)
    case File =>
      var files := Flushed(st.record.files, st.descriptor, st.fileType, st.name);
      var pending := st.descriptor.Some?;
      Mutated(st.(record := st.record.(files := files),
                  descriptor := Some(s),
                  fileType := if pending then None else st.fileType,
                  name := if pending then None else st.name), true)
    case Type => Mutated(st.(fileType := Some(s)), true)
    case Name => Mutated(st.(name := Some(s)), true)
  }

  /** `parseLine(line, state)` of `Main.kt`. */
  function Step(st: StateValue, line: string): (r: Stepped)
    ensures FromPrefix(LinePrefix(line)).None? ==> r == Stepped(st, Parsed(None))
    ensures FromPrefix(LinePrefix(line)).Some? ==> r.state.initialized
    ensures r.result.FieldParseError? <==> LinePrefix(line) == 'p' && ParseInt(LineValue(line)).None?
    ensures r.result.Parsed? && r.result.record.Some? <==>
      LinePrefix(line) == 'p' && st.initialized && ParseInt(LineValue(line)).Some?
    ensures r.result.Parsed? && r.result.record.Some? ==>
      && r.result.record.value == st.record.(files := r.result.record.value.files)
      && multiset(r.result.record.value.files) == multiset(st.record.files)
      && (forall i, j :: 0 <= i < j < |r.result.record.value.files| ==>
            StrLe(r.result.record.value.files[i].name, r.result.record.value.files[j].name))
      // the new record is `ProcessRecord()` with the new pid: user "" here
      && r.state == st.(record := ProcessRecord(pid := ParseInt(LineValue(line)).value))
    // the reason the `initialized` check in `main` never fires
    ensures r.result.Parsed? && r.result.record.Some? ==> r.state.initialized
    // any other known line runs its field's mutator on the text after the
    // tag, on the state marked initialized, and hands out no record
    ensures FromPrefix(LinePrefix(line)).Some? && !(LinePrefix(line) == 'p' && st.initialized) ==>
      && r.state == Mutate(st.(initialized := true), FromPrefix(LinePrefix(line)).value, LineValue(line)).state
      && (r.result.Parsed? ==> r.result.record.None?)
    // a boundary whose pid is not an Int drops the record in progress
    ensures LinePrefix(line) == 'p' && st.initialized && ParseInt(LineValue(line)).None? ==>
      r.state == st.(record := ProcessRecord())
    // the error names the field of the line's tag
    ensures r.result.FieldParseError? ==>
      FromPrefix(LinePrefix(line)).Some? && r.result.field == FromPrefix(LinePrefix(line)).value
  {
    match FromPrefix(LinePrefix(line))
    case None => Stepped(st, Parsed(None))
    case Some(f) =>
      var boundary := f == Pid && st.initialized;
      var emitted := if boundary then Some(st.record.(files := SortedByName(st.record.files))) else None;
      var reset := if boundary then st.(record := ProcessRecord()) else st;
      var m := Mutate(reset.(initialized := true), f, LineValue(line));
      if m.ok then Stepped(m.state, Parsed(emitted)) else Stepped(m.state, FieldParseError(f))
  }

  /** `finish(state)` of `Main.kt`: the same last flush, no sorting. */
  function Finished(st: StateValue): (r: (StateValue, Option<ProcessRecord>))
    ensures r.1.None? <==> !st.initialized
    ensures !st.initialized ==> r.0 == st
    ensures st.initialized ==>
      && r.1 == Some(r.0.record)
      && r.0.record.files == Flushed(st.record.files, st.descriptor, st.fileType, st.name)
      && r.0.record == st.record.(files := r.0.record.files)
      && r.0.descriptor == Some("") && r.0.initialized
    // the flush clears type and name; with nothing pending they stay as they were
    ensures st.initialized && st.descriptor.Some? ==> r.0.fileType == None && r.0.name == None
    ensures st.initialized && st.descriptor.None? ==> r.0.fileType == st.fileType && r.0.name == st.name
  {
    if st.initialized then
      var m := Mutate(st, File, "");
      (m.state, Some(m.state.record))
    else
      (st, None)
  }

  method ApplyMutator(f: Field, p: ParseState, s: string) returns (ok: bool)
    modifies p
    ensures Mutated(p.View(), ok) == Mutate(old(p.View()), f, s)
  {
    match f {
      case Command =>
        p.record := p.record.(command := s);
        ok := true;
      case Pid =>
        var v := ParseInt(s);
        ok := v.Some?;
        if ok {
          p.record := p.record.(pid := v.value);
        }
      case User =>
        p.record := p.record.(user := s);
        ok := true;
      case File =>
        if p.descriptor.Some? {
          p.record := p.record.(files := p.record.files +
            [FileRecord(p.descriptor.value, p.fileType.GetOr(Missing), p.name.GetOr(Missing))]);
          p.fileType := None;
          p.name := None;
        }
        p.descriptor := Some(s);
        ok := true;
      case Type =>
        p.fileType := Some(s);
        ok := true;
      case Name =>
        p.name := Some(s);
        ok := true;
    }
  }

  method ParseLine(line: string, parseState: ParseState?) returns (state: ParseState, result: LineResult)
    modifies parseState
    ensures parseState != null ==> state == parseState
    ensures parseState == null ==> fresh(state)
    ensures Stepped(state.View(), result) ==
      Step(if parseState == null then Initial else old(parseState.View()), line)
  {
    if parseState == null {
      state := new ParseState.New();
    } else {
      state := parseState;
    }
    var col := FromPrefix(LinePrefix(line));
    if col.Some? {
      var record := None;
      if col.value == Pid && state.initialized {
        record := Some(state.record.(files := SortedByName(state.record.files)));
        state.record := ProcessRecord();
      }
      state.initialized := true;
      var ok := ApplyMutator(col.value, state, LineValue(line));
      result := if ok then Parsed(record) else FieldParseError(col.value);
    } else {
      result := Parsed(None);
    }
  }

  method Finish(state: ParseState) returns (r: Option<ProcessRecord>)
    modifies state
    ensures (state.View(), r) == Finished(old(state.View()))
  {
    if state.initialized {
      var _ := ApplyMutator(File, state, "");
      r := Some(state.record);
    } else {
      r := None;
    }
  }

  // ---------------------------------------------------------------------------
  // The loop of `main`

  datatype Outcome = Completed(records: map<int, ProcessRecord>) | Aborted(field: Field)

  /** What `main`'s loop stores for `lines`, from state `st` and map `m`:
      each record handed out, and at the end the one `finish` returns,
      replaces whatever its pid had. */
  function Run(st: StateValue, m: map<int, ProcessRecord>, lines: seq<string>): Outcome
    decreases |lines|
  {
    if lines == [] then
      match Finished(st).1
      case None => Completed(m)
      case Some(last) => Completed(m[last.pid := last])
    else
      var s := Step(st, lines[0]);
      match s.result
      case FieldParseError(f) => Aborted(f)
      case Parsed(rec) => Run(s.state, if rec.Some? then m[rec.value.pid := rec.value] else m, lines[1..])
  }

  /** The loop of `main` over the lines of the input (as one sequence), with
      the exception of a failing `p` line as `Aborted`. */
  method CollectRecords(lines: seq<string>) returns (r: Outcome)
    ensures r == Run(Initial, map[], lines)
  {
    var processMetadata: map<int, ProcessRecord> := map[];
    var state := new ParseState.New();
    var i := 0;
    while i < |lines|
      invariant 0 <= i <= |lines|
      invariant fresh(state)
      invariant Run(Initial, map[], lines) == Run(state.View(), processMetadata, lines[i..])
    {
      assert lines[i..][1..] == lines[i + 1..];
      var next, result := ParseLine(lines[i], state);
      match result {
        case FieldParseError(f) =>
          return Aborted(f);
        case Parsed(rec) =>
          if rec.Some? {
            // the check `!lineState.first.initialized` of `main` cannot fire
            assert next.initialized;
            processMetadata := processMetadata[rec.value.pid := rec.value];
          }
      }
      state := next;
      i := i + 1;
    }
    var last := Finish(state);
    if last.Some? {
      processMetadata := processMetadata[last.value.pid := last.value];
    }
    r := Completed(processMetadata);
  }

  // ---------------------------------------------------------------------------
  // Properties of the loop

  /** The records a run hands out, in order, ending with what `finish`
      returns; `None` when a `p` line throws. */
  function Records(st: StateValue, lines: seq<string>): Option<seq<ProcessRecord>>
    decreases |lines|
  {
    if lines == [] then
      match Finished(st).1
      case None => Some([])
      case Some(last) => Some([last])
    else
      var s := Step(st, lines[0]);
      match s.result
      case FieldParseError(_) => None
      case Parsed(rec) =>
        match Records(s.state, lines[1..])
        case None => None
        case Some(rest) => Some((if rec.Some? then [rec.value] else []) + rest)
  }

  /** Storing `rs` in order, each replacing the previous record of its pid. */
  function LastWins(m: map<int, ProcessRecord>, rs: seq<ProcessRecord>): map<int, ProcessRecord>
    decreases |rs|
  {
    if rs == [] then m else LastWins(m[rs[0].pid := rs[0]], rs[1..])
  }

  /** The loop stores exactly the records it hands out, last one winning. */
  lemma {:induction false} RunIsLastWins(st: StateValue, m: map<int, ProcessRecord>, lines: seq<string>)
    ensures Run(st, m, lines).Completed? <==> Records(st, lines).Some?
    ensures Run(st, m, lines).Completed? ==> Run(st, m, lines).records == LastWins(m, Records(st, lines).value)
    decreases |lines|
  {
    if lines == [] {
      var last := Finished(st).1;
      if last.Some? {
        assert [last.value][1..] == [];
      }
    } else {
      var s := Step(st, lines[0]);
      if s.result.Parsed? {
        var rec := s.result.record;
        var m' := if rec.Some? then m[rec.value.pid := rec.value] else m;
        RunIsLastWins(s.state, m', lines[1..]);
        if rec.Some? && Records(s.state, lines[1..]).Some? {
          var rest := Records(s.state, lines[1..]).value;
          assert ([rec.value] + rest)[1..] == rest;
        }
        if rec.None? && Records(s.state, lines[1..]).Some? {
          assert [] + Records(s.state, lines[1..]).value == Records(s.state, lines[1..]).value;
        }
      }
    }
  }

  /** After storing `rs`, a pid maps to the LAST record of `rs` with that pid,
      or keeps its earlier value when `rs` has none. */
  lemma {:induction false} LastWinsValue(m: map<int, ProcessRecord>, rs: seq<ProcessRecord>, pid: int)
    ensures pid in LastWins(m, rs) <==> pid in m || exists i :: 0 <= i < |rs| && rs[i].pid == pid
    ensures forall j :: (0 <= j < |rs| && rs[j].pid == pid &&
      (forall k :: j < k < |rs| ==> rs[k].pid != pid)) ==> LastWins(m, rs)[pid] == rs[j]
    ensures (forall i :: 0 <= i < |rs| ==> rs[i].pid != pid) && pid in m ==> LastWins(m, rs)[pid] == m[pid]
    decreases |rs|
  {
    if rs != [] {
      var m' := m[rs[0].pid := rs[0]];
      LastWinsValue(m', rs[1..], pid);
      if i :| 0 <= i < |rs| && rs[i].pid == pid {
        if i > 0 {
          assert rs[1..][i - 1].pid == pid;
        }
      }
      if i :| 0 <= i < |rs[1..]| && rs[1..][i].pid == pid {
        assert rs[i + 1].pid == pid;
      }
      forall j | 0 <= j < |rs| && rs[j].pid == pid && (forall k :: j < k < |rs| ==> rs[k].pid != pid)
        ensures LastWins(m, rs)[pid] == rs[j]
      {
        if j > 0 {
          assert rs[1..][j - 1] == rs[j];
          forall k | j - 1 < k < |rs[1..]|
            ensures rs[1..][k].pid != pid
          {
            assert rs[1..][k] == rs[k + 1];
          }
        } else {
          forall i | 0 <= i < |rs[1..]|
            ensures rs[1..][i].pid != pid
          {
            assert rs[1..][i] == rs[i + 1];
          }
        }
      }
      if (forall i :: 0 <= i < |rs| ==> rs[i].pid != pid) && pid in m {
        forall i | 0 <= i < |rs[1..]|
          ensures rs[1..][i].pid != pid
        {
          assert rs[1..][i] == rs[i + 1];
        }
      }
    }
  }
}
