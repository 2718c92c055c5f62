/** `model/FileRecord.kt`: one open file of a process, an immutable value with
    structural equality (a Dafny datatype). */
module FileRecords {
  import opened Strings
  import opened Sorting

  /** `FileRecord(descriptor, type, name)`; `type` is a Dafny keyword, hence
      `fileType`. */
  datatype FileRecord = FileRecord(descriptor: string, fileType: string, name: string)

  /** What the FILE mutator writes for a missing type or name. */
  const Missing: string := "none"

  /** The order of `sortedBy { it.name }`. */
  predicate NameLe(a: FileRecord, b: FileRecord) {
    StrLe(a.name, b.name)
  }

  lemma NameOrder()
    ensures TotalPreorder(NameLe)
  {
    forall a: FileRecord, b: FileRecord
      ensures NameLe(a, b) || NameLe(b, a)
    {
      StrLeTotal(a.name, b.name);
    }
    forall a: FileRecord, b: FileRecord, c: FileRecord | NameLe(a, b) && NameLe(b, c)
      ensures NameLe(a, c)
    {
      StrLeTransitive(a.name, b.name, c.name);
    }
  }

  /** `files.sortedBy { it.name }`: the same files, ordered by name, ties in
      their original order. */
  function SortedByName(files: seq<FileRecord>): (r: seq<FileRecord>)
    ensures forall i, j :: 0 <= i < j < |r| ==> StrLe(r[i].name, r[j].name)
    ensures multiset(r) == multiset(files)
  {
    NameOrder();
    SortBy(files, NameLe)
  }

  /** The first half of the FILE mutator: a pending descriptor becomes a file
      record appended at the end; without one nothing is added. */
  function Flushed(files: seq<FileRecord>, descriptor: Option<string>,
                   fileType: Option<string>, name: Option<string>): seq<FileRecord>
  {
    match descriptor
    case None => files
    case Some(d) => files + [FileRecord(d, fileType.GetOr(Missing), name.GetOr(Missing))]
  }
}
