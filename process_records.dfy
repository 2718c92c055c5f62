/** `model/ProcessRecord.kt`: one process and the files it holds open. The
    parser fills a record field by field; here the record is a value and the
    parse state that owns it is what changes (see `ParseStates`). */
module ProcessRecords {
  import opened FileRecords

  /** The defaults are those of the Kotlin data class: `ProcessRecord()` has
      pid -1, parent pid -1, command "", user -1 and no files. */
  datatype ProcessRecord = ProcessRecord(
    pid: int := -1,
    parentPid: int := -1,
    command: string := "",
    user: int := -1,
    files: seq<FileRecord> := [])
}
