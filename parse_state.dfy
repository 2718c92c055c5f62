/** `model/ParseState.kt`: the accumulator the parser mutates line by line. */
module ParseStates {
  import opened Strings
  import opened ProcessRecords

  /** The five fields of a parse state, as a value: what the data class's
      structural equality compares. `None` is Kotlin's `null`, "nothing
      pending", which differs from a pending `""`. */
  datatype StateValue = StateValue(
    record: ProcessRecord,
    initialized: bool,
    descriptor: Option<string>,
    fileType: Option<string>,
    name: Option<string>)

  /** The value of `ParseState.new()`. */
  const Initial: StateValue := StateValue(ProcessRecord(), false, None, None, None)

  class ParseState {
    var record: ProcessRecord
    var initialized: bool
    var descriptor: Option<string>
    var fileType: Option<string>
    var name: Option<string>

    function View(): StateValue
      reads this
    {
      StateValue(record, initialized, descriptor, fileType, name)
    }

    /** The data class's primary constructor. */
    constructor (record: ProcessRecord, initialized: bool, descriptor: Option<string>,
                 fileType: Option<string>, name: Option<string>)
      ensures View() == StateValue(record, initialized, descriptor, fileType, name)
    {
      this.record := record;
      this.initialized := initialized;
      this.descriptor := descriptor;
      this.fileType := fileType;
      this.name := name;
    }

    /** `ParseState.new()`: a default record, not initialized, nothing pending. */
    constructor New()
      ensures View() == Initial
      ensures record.pid == -1 && record.parentPid == -1 && record.command == ""
      ensures record.user == -1 && record.files == []
      ensures !initialized && descriptor == None && fileType == None && name == None
    {
      record := ProcessRecord();
      initialized := false;
      descriptor, fileType, name := None, None, None;
    }
  }
}
