/** Properties of `LSOFParser.kt` over several lines: the one-step lookahead
    flush, the record boundary that leaves the pending file behind, the last
    flush of `finish`, and the record store's conflict policy. */
module LsofProperties {
  import opened Strings
  import opened FileRecords
  import opened ProcessRecords
  import opened Fields
  import opened ParseStates
  import opened LsofParser
  import Collections

  /** The state after feeding `lines` to `parseLine` one by one, the records
      handed out on the way, and the field whose mutator threw, if one did
      (parsing stops there). */
  datatype Fed = Fed(state: StateValue, emitted: seq<ProcessRecord>, error: Option<Field>)

  function Feed(st: StateValue, lines: seq<string>): Fed
    decreases |lines|
  {
    if lines == [] then Fed(st, [], None)
    else
      var s := Step(st, lines[0]);
      match s.result
      case FieldParseError(f) => Fed(s.state, [], Some(f))
      case Parsed(rec) =>
        var rest := Feed(s.state, lines[1..]);
        var out := if rec.Some? then [rec.value] else [];
        Fed(rest.state, out + rest.emitted, rest.error)
  }

  /** Number of lines tagged `p`. */
  function PidLines(lines: seq<string>): nat {
    if lines == [] then 0
    else (if LinePrefix(lines[0]) == 'p' then 1 else 0) + PidLines(lines[1..])
  }

  /** Once a record is in progress, every `p` line hands out exactly one record. */
  lemma {:induction false} OneRecordPerPidLine(st: StateValue, lines: seq<string>)
    requires st.initialized
    requires Feed(st, lines).error == None
    ensures |Feed(st, lines).emitted| == PidLines(lines)
    decreases |lines|
  {
    if lines != [] {
      var s := Step(st, lines[0]);
      OneRecordPerPidLine(s.state, lines[1..]);
    }
  }

  /** The first `p` line of a stream hands out nothing, so a stream that
      starts with a `p` line hands out one record fewer than it has `p` lines. */
  lemma FirstPidLineEmitsNothing(lines: seq<string>)
    requires lines != [] && LinePrefix(lines[0]) == 'p'
    requires Feed(Initial, lines).error == None
    ensures |Feed(Initial, lines).emitted| == PidLines(lines) - 1
  {
    var s := Step(Initial, lines[0]);
    OneRecordPerPidLine(s.state, lines[1..]);
  }

  /** The records a run stores: `parseLine` on every line with `storeRecord`
      on each record handed out, then `storeRecord` on what `finish` returns.
      A thrown mutator ends the run. */
  datatype RunResult = Completed(records: map<int, ProcessRecord>) | Aborted(field: Field)

  function Run(st: StateValue, records: map<int, ProcessRecord>, lines: seq<string>): RunResult
    decreases |lines|
  {
    if lines == [] then
      match Finished(st).1
      case None => Completed(records)
      case Some(last) => Completed(Stored(records, last))
    else
      var s := Step(st, lines[0]);
      match s.result
      case FieldParseError(f) => Aborted(f)
      case Parsed(rec) =>
        Run(s.state, if rec.Some? then Stored(records, rec.value) else records, lines[1..])
  }

  /** Running over `a + b` is running over `a`, storing what it handed out,
      and going on with `b` from where `a` left the state. */
  lemma {:induction false} RunAppend(st: StateValue, records: map<int, ProcessRecord>, a: seq<string>, b: seq<string>)
    requires Feed(st, a).error == None
    ensures Run(st, records, a + b) ==
      Run(Feed(st, a).state, StoredAll(records, Feed(st, a).emitted), b)
    decreases |a|
  {
    if a == [] {
      assert a + b == b;
    } else {
      var s := Step(st, a[0]);
      assert (a + b)[0] == a[0] && (a + b)[1..] == a[1..] + b;
      var rec := s.result.record;
      var m := if rec.Some? then Stored(records, rec.value) else records;
      RunAppend(s.state, m, a[1..], b);
      var rest := Feed(s.state, a[1..]);
      if rec.Some? {
        assert ([rec.value] + rest.emitted)[1..] == rest.emitted;
      } else {
        assert [] + rest.emitted == rest.emitted;
      }
    }
  }

  /** A `p` line does not flush: a file still pending when a record ends is
      attached to the next record, by that record's first `f` line. */
  lemma PendingFileMovesToNextRecord(st: StateValue, pid: string, descriptor: string)
    requires st.initialized && st.descriptor.Some?
    requires ParseInt(pid).Some?
    ensures Step(st, "p" + pid).result == Parsed(Some(Hydrated(st.record)))
    ensures Step(st, "p" + pid).state.descriptor == st.descriptor
    ensures Step(st, "p" + pid).state.record.files == []
    ensures Step(Step(st, "p" + pid).state, "f" + descriptor).state.record.files == [PendingFile(st)]
  {
    var line := "p" + pid;
    assert LinePrefix(line) == 'p';
    assert LineValue(line) == pid;
    assert LinePrefix("f" + descriptor) == 'f';
  }

  /** ... or, when no `f` line follows, by `finish`. */
  lemma PendingFileFlushedByFinish(st: StateValue, pid: string)
    requires st.initialized && st.descriptor.Some?
    requires ParseInt(pid).Some?
    ensures Finished(Step(st, "p" + pid).state).1 ==
      Some(ProcessRecord(pid := ParseInt(pid).value, files := [PendingFile(st)]))
  {
    var line := "p" + pid;
    assert LinePrefix(line) == 'p';
    assert LineValue(line) == pid;
    var s := Step(st, line).state;
    assert s == st.(record := ProcessRecord(pid := ParseInt(pid).value));
    assert Flushed([], s.descriptor, s.fileType, s.name) == [PendingFile(st)];
    var f := Finished(s);
    assert f.0.record.files == [PendingFile(st)];
    assert f.0.record == ProcessRecord(pid := ParseInt(pid).value, files := [PendingFile(st)]);
  }

  /** Calling `finish` twice appends a second file, `("", "none", "none")`,
      because the first call leaves `""` pending as a descriptor. */
  lemma FinishTwiceAddsEmptyFile(st: StateValue)
    requires st.initialized
    requires st.descriptor.Some? || (st.fileType == None && st.name == None)
    ensures Finished(Finished(st).0).1.Some?
    ensures Finished(Finished(st).0).1.value.files ==
      Finished(st).1.value.files + [FileRecord("", Missing, Missing)]
  {
  }

  /** A line of a tag other than `p` and `u` runs its mutator and hands out
      nothing. */
  lemma StepPlainLine(st: StateValue, line: string, f: Field)
    requires FromPrefix(LinePrefix(line)) == Some(f) && f !in {Pid, User}
    ensures Step(st, line) == Stepped(Mutate(st.(initialized := true), f, LineValue(line)).state, Parsed(None))
  {
  }

  /** The three lines `f`, `t`, `n` flush whatever was pending and leave one
      complete file pending. */
  lemma OneFileLines(st: StateValue, d: string, t: string, n: string)
    requires st.initialized
    ensures Feed(st, ["f" + d, "t" + t, "n" + n]) ==
      Fed(st.(record := st.record.(files := Flushed(st.record.files, st.descriptor, st.fileType, st.name)),
              descriptor := Some(d), fileType := Some(t), name := Some(n)), [], None)
  {
    var lines := ["f" + d, "t" + t, "n" + n];
    assert LinePrefix(lines[0]) == 'f' && LineValue(lines[0]) == d;
    assert LinePrefix(lines[1]) == 't' && LineValue(lines[1]) == t;
    assert LinePrefix(lines[2]) == 'n' && LineValue(lines[2]) == n;
    StepPlainLine(st, lines[0], File);
    var s1 := Mutate(st, File, d).state;
    StepPlainLine(s1, lines[1], Type);
    var s2 := s1.(fileType := Some(t));
    StepPlainLine(s2, lines[2], Name);
    var s3 := s2.(name := Some(n));
    FeedQuietLine(s2, lines[2..], s3);
    FeedQuietLine(s1, lines[1..], s2);
    FeedQuietLine(st, lines, s1);
    assert lines[1..][1..] == lines[2..] && lines[2..][1..] == [];
  }

  /** `f,t,n,f,t,n` yields two files, each with its own type and name, once a
      later `f` line or `finish` flushes the second. */
  lemma TwoFilesInOrder(st: StateValue, d1: string, t1: string, n1: string,
                        d2: string, t2: string, n2: string)
    requires st.initialized && st.descriptor == None
    ensures
      var fed := Feed(st, ["f" + d1, "t" + t1, "n" + n1, "f" + d2, "t" + t2, "n" + n2]);
      && fed.error == None && fed.emitted == [] && Finished(fed.state).1.Some?
      && Finished(fed.state).1.value.files ==
         st.record.files + [FileRecord(d1, t1, n1), FileRecord(d2, t2, n2)]
  {
    var files := st.record.files + [FileRecord(d1, t1, n1)];
    TwoFilesLines(st, d1, t1, n1, d2, t2, n2);
    var s6 := st.(record := st.record.(files := files), descriptor := Some(d2), fileType := Some(t2), name := Some(n2));
    assert Finished(s6).1.value.files == files + [FileRecord(d2, t2, n2)];
  }

  /** The six lines of two files leave the first one flushed and the second
      one pending. */
  lemma TwoFilesLines(st: StateValue, d1: string, t1: string, n1: string,
                      d2: string, t2: string, n2: string)
    requires st.initialized && st.descriptor == None
    ensures Feed(st, ["f" + d1, "t" + t1, "n" + n1, "f" + d2, "t" + t2, "n" + n2]) ==
      Fed(st.(record := st.record.(files := st.record.files + [FileRecord(d1, t1, n1)]),
              descriptor := Some(d2), fileType := Some(t2), name := Some(n2)), [], None)
  {
    var a := ["f" + d1, "t" + t1, "n" + n1];
    var b := ["f" + d2, "t" + t2, "n" + n2];
    OneFileLines(st, d1, t1, n1);
    assert Flushed(st.record.files, st.descriptor, st.fileType, st.name) == st.record.files;
    var s3 := st.(descriptor := Some(d1), fileType := Some(t1), name := Some(n1));
    assert Feed(st, a) == Fed(s3, [], None);
    OneFileLines(s3, d2, t2, n2);
    var files := st.record.files + [FileRecord(d1, t1, n1)];
    assert Flushed(s3.record.files, s3.descriptor, s3.fileType, s3.name) == files;
    var s6 := s3.(record := s3.record.(files := files), descriptor := Some(d2), fileType := Some(t2), name := Some(n2));
    assert Feed(s3, b) == Fed(s6, [], None);
    QuietChunks(st, a, b, s3, s6);
    assert a + b == ["f" + d1, "t" + t1, "n" + n1, "f" + d2, "t" + t2, "n" + n2];
  }

  /** Two chunks of lines that each hand out nothing and raise no error do
      the same when fed one after the other. */
  lemma QuietChunks(st: StateValue, a: seq<string>, b: seq<string>, mid: StateValue, last: StateValue)
    requires Feed(st, a) == Fed(mid, [], None) && Feed(mid, b) == Fed(last, [], None)
    ensures Feed(st, a + b) == Fed(last, [], None)
  {
    FeedAppend(st, a, b);
  }

  /** `f,f` with nothing between: the first file gets `"none"` for its type
      and name (not the empty string). */
  lemma MissingTypeAndNameAreNone(st: StateValue, d1: string, d2: string)
    requires st.initialized && st.descriptor == None && st.fileType == None && st.name == None
    ensures
      var fed := Feed(st, ["f" + d1, "f" + d2]);
      && fed.error == None && Finished(fed.state).1.Some?
      && Finished(fed.state).1.value.files ==
         st.record.files + [FileRecord(d1, "none", "none"), FileRecord(d2, "none", "none")]
  {
    var lines := ["f" + d1, "f" + d2];
    assert LinePrefix(lines[0]) == 'f' && LineValue(lines[0]) == d1;
    assert LinePrefix(lines[1]) == 'f' && LineValue(lines[1]) == d2;
    var s1 := Step(st, lines[0]).state;
    var s2 := Step(s1, lines[1]).state;
    assert lines[1..][1..] == [];
    assert Feed(s1, lines[1..]) == Fed(s2, [], None);
  }

  /** Record 101 of the example stream, up to the line before `p102`. */
  const Pid101Lines: seq<string> := ["p101", "cshell", "u33", "f5", "tREG", "n/tmp/a"]
  const Pid102Lines: seq<string> := ["p102", "c bash", "u33", "f3", "tREG", "n/tmp/b"]

  lemma ParseExampleInts()
    ensures ParseInt("101") == Some(101) && ParseInt("102") == Some(102) && ParseInt("33") == Some(33)
  {
    assert DigitsValue("101") == 101 by { assert "101"[..2] == "10"; assert "10"[..1] == "1"; }
    assert DigitsValue("102") == 102 by { assert "102"[..2] == "10"; assert "10"[..1] == "1"; }
    assert DigitsValue("33") == 33 by { assert "33"[..1] == "3"; }
  }

  /** A line that hands out nothing just moves the state on. */
  lemma FeedQuietLine(st: StateValue, lines: seq<string>, next: StateValue)
    requires lines != [] && Step(st, lines[0]) == Stepped(next, Parsed(None))
    ensures Feed(st, lines) == Feed(next, lines[1..])
  {
  }

  const Pid101State: StateValue :=
    StateValue(ProcessRecord(pid := 101, command := "shell", user := 33), true,
               Some("5"), Some("REG"), Some("/tmp/a"))

  /** The states after each line of `Pid101Lines`. */
  function Pid101After(k: nat): StateValue
    requires 1 <= k <= 6
  {
    var r := ProcessRecord(pid := 101);
    match k
    case 1 => StateValue(r, true, None, None, None)
    case 2 => StateValue(r.(command := "shell"), true, None, None, None)
    case 3 => StateValue(r.(command := "shell", user := 33), true, None, None, None)
    case 4 => StateValue(r.(command := "shell", user := 33), true, Some("5"), None, None)
    case 5 => StateValue(r.(command := "shell", user := 33), true, Some("5"), Some("REG"), None)
    case 6 => Pid101State
  }

  lemma Pid101Steps(k: nat)
    requires 0 <= k < 6
    ensures Step(if k == 0 then Initial else Pid101After(k), Pid101Lines[k]) ==
            Stepped(Pid101After(k + 1), Parsed(None))
  {
    ParseExampleInts();
    var line := Pid101Lines[k];
    assert LineValue(line) == line[1..];
  }

  lemma {:induction false} FeedPid101From(k: nat)
    requires 1 <= k <= 6
    ensures Feed(Pid101After(k), Pid101Lines[k..]) == Fed(Pid101State, [], None)
    decreases 6 - k
  {
    if k < 6 {
      Pid101Steps(k);
      FeedPid101From(k + 1);
      FeedQuietLine(Pid101After(k), Pid101Lines[k..], Pid101After(k + 1));
      assert Pid101Lines[k..][1..] == Pid101Lines[k + 1..];
    }
  }

  lemma FeedPid101()
    ensures Feed(Initial, Pid101Lines) == Fed(Pid101State, [], None)
  {
    Pid101Steps(0);
    FeedPid101From(1);
    FeedQuietLine(Initial, Pid101Lines, Pid101After(1));
  }

  const Pid102State: StateValue :=
    StateValue(ProcessRecord(pid := 102, command := " bash", user := 33,
                             files := [FileRecord("5", "REG", "/tmp/a")]), true,
               Some("3"), Some("REG"), Some("/tmp/b"))

  /** The states after each line of `Pid102Lines`. */
  function Pid102After(k: nat): StateValue
    requires 1 <= k <= 6
  {
    var r := ProcessRecord(pid := 102);
    var a := [FileRecord("5", "REG", "/tmp/a")];
    match k
    case 1 => Pid101State.(record := r)
    case 2 => Pid101State.(record := r.(command := " bash"))
    case 3 => Pid101State.(record := r.(command := " bash", user := 33))
    case 4 => StateValue(r.(command := " bash", user := 33, files := a), true, Some("3"), None, None)
    case 5 => StateValue(r.(command := " bash", user := 33, files := a), true, Some("3"), Some("REG"), None)
    case 6 => Pid102State
  }

  lemma Pid102Steps(k: nat)
    requires 0 <= k < 6
    ensures Step(if k == 0 then Pid101State else Pid102After(k), Pid102Lines[k]) ==
            Stepped(Pid102After(k + 1),
                    Parsed(if k == 0 then Some(ProcessRecord(pid := 101, command := "shell", user := 33)) else None))
  {
    ParseExampleInts();
    var line := Pid102Lines[k];
    assert LineValue(line) == line[1..];
  }

  lemma {:induction false} FeedPid102From(k: nat)
    requires 1 <= k <= 6
    ensures Feed(Pid102After(k), Pid102Lines[k..]) == Fed(Pid102State, [], None)
    decreases 6 - k
  {
    if k < 6 {
      Pid102Steps(k);
      FeedPid102From(k + 1);
      FeedQuietLine(Pid102After(k), Pid102Lines[k..], Pid102After(k + 1));
      assert Pid102Lines[k..][1..] == Pid102Lines[k + 1..];
    }
  }

  lemma FeedPid102()
    ensures Feed(Pid101State, Pid102Lines) ==
      Fed(Pid102State, [ProcessRecord(pid := 101, command := "shell", user := 33)], None)
  {
    Pid102Steps(0);
    FeedPid102From(1);
  }

  /** The example stream `p101, cshell, u33, f5, tREG, n/tmp/a, p102, c bash,
      u33, f3, tREG, n/tmp/b` as the code handles it: the file of pid 101 is
      still pending at `p102`, so pid 101 is stored with no files and pid 102
      with both, in arrival order. */
  lemma ExampleStream()
    ensures Run(Initial, map[], Pid101Lines + Pid102Lines) == Completed(ExampleRecords())
  {
    var that := ProcessRecord(pid := 101, command := "shell", user := 33);
    FeedExample();
    RunAppend(Initial, map[], Pid101Lines + Pid102Lines, []);
    assert Pid101Lines + Pid102Lines + [] == Pid101Lines + Pid102Lines;
    assert StoredAll(map[], [that]) == map[101 := that] by {
      assert [that][1..] == [];
    }
    FinishExample();
  }

  /** What the example stream stores. */
  function ExampleRecords(): map<int, ProcessRecord> {
    map[
      101 := ProcessRecord(pid := 101, command := "shell", user := 33, files := []),
      102 := ProcessRecord(pid := 102, command := " bash", user := 33,
                           files := [FileRecord("5", "REG", "/tmp/a"), FileRecord("3", "REG", "/tmp/b")])]
  }

  lemma FeedExample()
    ensures Feed(Initial, Pid101Lines + Pid102Lines) ==
      Fed(Pid102State, [ProcessRecord(pid := 101, command := "shell", user := 33)], None)
  {
    FeedPid101();
    FeedPid102();
    FeedAppend(Initial, Pid101Lines, Pid102Lines);
  }

  lemma FinishExample()
    ensures Run(Pid102State, map[101 := ProcessRecord(pid := 101, command := "shell", user := 33)], []) ==
      Completed(ExampleRecords())
  {
    var last := ProcessRecord(pid := 102, command := " bash", user := 33,
                              files := [FileRecord("5", "REG", "/tmp/a"), FileRecord("3", "REG", "/tmp/b")]);
    var a := [FileRecord("5", "REG", "/tmp/a")];
    assert Flushed(a, Some("3"), Some("REG"), Some("/tmp/b")) == last.files;
    assert Finished(Pid102State).1 == Some(last);
  }

  /** Feeding `a + b` is feeding `a`, then `b`. */
  lemma {:induction false} FeedAppend(st: StateValue, a: seq<string>, b: seq<string>)
    requires Feed(st, a).error == None
    ensures Feed(st, a + b) ==
      var fa := Feed(st, a);
      var fb := Feed(fa.state, b);
      Fed(fb.state, fa.emitted + fb.emitted, fb.error)
    decreases |a|
  {
    if a == [] {
      assert a + b == b;
    } else {
      var s := Step(st, a[0]);
      assert (a + b)[0] == a[0] && (a + b)[1..] == a[1..] + b;
      FeedAppend(s.state, a[1..], b);
      var out := if s.result.record.Some? then [s.result.record.value] else [];
      var fa := Feed(s.state, a[1..]);
      var fb := Feed(fa.state, b);
      Collections.ConcatAssoc(out, fa.emitted, fb.emitted);
    }
  }

  // ---------------------------------------------------------------------------
  // The record store

  /** `storeRecord` for each record in turn. */
  function StoredAll(records: map<int, ProcessRecord>, rs: seq<ProcessRecord>): map<int, ProcessRecord>
    decreases |rs|
  {
    if rs == [] then records else StoredAll(Stored(records, rs[0]), rs[1..])
  }

  /** Storing the same record twice is storing it once. */
  lemma StoreIdempotent(records: map<int, ProcessRecord>, r: ProcessRecord)
    ensures Stored(Stored(records, r), r) == Stored(records, r)
  {
  }

  /** The store holds one record per distinct pid seen, and nothing else. */
  lemma {:induction false} StoredAllKeys(records: map<int, ProcessRecord>, rs: seq<ProcessRecord>)
    ensures forall p :: p in StoredAll(records, rs) <==>
      p in records || exists i :: 0 <= i < |rs| && rs[i].pid == p
    decreases |rs|
  {
    if rs != [] {
      var m := Stored(records, rs[0]);
      StoredAllKeys(m, rs[1..]);
      forall p
        ensures p in StoredAll(records, rs) <==> p in records || exists i :: 0 <= i < |rs| && rs[i].pid == p
      {
        if i :| 0 <= i < |rs[1..]| && rs[1..][i].pid == p {
          assert rs[i + 1].pid == p;
        }
        if i :| 0 <= i < |rs| && rs[i].pid == p {
          if i > 0 {
            assert rs[1..][i - 1].pid == p;
          }
        }
      }
    }
  }

  /** The record kept for a pid is one of the candidates for it (the one
      already stored, or one stored since), and no candidate has more files. */
  lemma {:induction false} StoredAllKeepsLargest(records: map<int, ProcessRecord>, rs: seq<ProcessRecord>, pid: int)
    requires pid in records || exists i :: 0 <= i < |rs| && rs[i].pid == pid
    ensures pid in StoredAll(records, rs)
    ensures var kept := StoredAll(records, rs)[pid];
      && ((pid in records && kept == records[pid]) || (exists i :: 0 <= i < |rs| && rs[i].pid == pid && rs[i] == kept))
      && (pid in records ==> |records[pid].files| <= |kept.files|)
      && (forall i :: 0 <= i < |rs| && rs[i].pid == pid ==> |rs[i].files| <= |kept.files|)
    decreases |rs|
  {
    if rs != [] {
      var m := Stored(records, rs[0]);
      if pid !in m {
        var i :| 0 <= i < |rs| && rs[i].pid == pid;
        assert i > 0 && rs[1..][i - 1].pid == pid;
      }
      StoredAllKeepsLargest(m, rs[1..], pid);
      var kept := StoredAll(m, rs[1..])[pid];
      if pid in m && m[pid] == kept {
        if m[pid] == rs[0] {
          assert rs[0] == kept;
        }
      } else {
        var i :| 0 <= i < |rs[1..]| && rs[1..][i].pid == pid && rs[1..][i] == kept;
        assert rs[i + 1] == kept;
      }
      forall i | 0 <= i < |rs| && rs[i].pid == pid
        ensures |rs[i].files| <= |kept.files|
      {
        if i > 0 {
          assert rs[1..][i - 1] == rs[i];
        }
      }
    }
  }

  /** A later record with at least as many files replaces an earlier one:
      ties go to the later record. */
  lemma LaterRecordWinsTies(older: ProcessRecord, newer: ProcessRecord)
    requires older.pid == newer.pid && |older.files| <= |newer.files|
    ensures newer.pid in StoredAll(map[], [older, newer])
    ensures StoredAll(map[], [older, newer])[newer.pid] == newer
  {
    var m1 := Stored(map[], older);
    assert [older, newer][1..] == [newer] && [newer][1..] == [];
    assert StoredAll(m1, [newer]) == StoredAll(Stored(m1, newer), []);
  }

  /** The general rule: a pid ends up with its last candidate among those
      with the most files, unless the record already stored has strictly
      more files than all of them. */
  lemma {:induction false} LastLargestWins(records: map<int, ProcessRecord>, rs: seq<ProcessRecord>, pid: int, j: nat)
    requires j < |rs| && rs[j].pid == pid
    requires forall i :: 0 <= i < |rs| && rs[i].pid == pid ==> |rs[i].files| <= |rs[j].files|
    requires forall i :: j < i < |rs| && rs[i].pid == pid ==> |rs[i].files| < |rs[j].files|
    requires pid in records ==> |records[pid].files| <= |rs[j].files|
    ensures pid in StoredAll(records, rs) && StoredAll(records, rs)[pid] == rs[j]
    decreases |rs|
  {
    var m := Stored(records, rs[0]);
    if j == 0 {
      forall i | 0 <= i < |rs[1..]| && rs[1..][i].pid == pid
        ensures |rs[1..][i].files| < |m[pid].files|
      {
        assert rs[i + 1] == rs[1..][i];
      }
      LargerStays(m, rs[1..], pid);
    } else {
      forall i | 0 <= i < |rs[1..]| && rs[1..][i].pid == pid
        ensures |rs[1..][i].files| <= |rs[1..][j - 1].files|
        ensures j - 1 < i ==> |rs[1..][i].files| < |rs[1..][j - 1].files|
      {
        assert rs[i + 1] == rs[1..][i];
      }
      LastLargestWins(m, rs[1..], pid, j - 1);
    }
  }

  /** A stored record with strictly more files than every later candidate
      for its pid stays. */
  lemma {:induction false} LargerStays(records: map<int, ProcessRecord>, rs: seq<ProcessRecord>, pid: int)
    requires pid in records
    requires forall i :: 0 <= i < |rs| && rs[i].pid == pid ==> |rs[i].files| < |records[pid].files|
    ensures pid in StoredAll(records, rs) && StoredAll(records, rs)[pid] == records[pid]
    decreases |rs|
  {
    if rs != [] {
      var m := Stored(records, rs[0]);
      assert m[pid] == records[pid];
      forall i | 0 <= i < |rs[1..]| && rs[1..][i].pid == pid
        ensures |rs[1..][i].files| < |m[pid].files|
      {
        assert rs[i + 1] == rs[1..][i];
      }
      LargerStays(m, rs[1..], pid);
    }
  }
}
