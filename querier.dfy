/** `service/ProcessesQuerier.kt`: report queries over the stored records.
    The map `data` is given with `order`, the order in which its keys are
    iterated (a Kotlin `LinkedHashMap` keeps insertion order); the user and
    process resolvers are lookup functions. */
module ProcessesQuerier {
  import opened Strings
  import opened Sorting
  import opened Collections
  import opened FileRecords
  import opened ProcessRecords

  /** A record with what the resolvers know about it. */
  datatype EnhancedProcess<M> = EnhancedProcess(record: ProcessRecord, metadata: Option<M>, userName: Option<string>)

  const InternetProtocols: set<string> := {"TCP", "UDP"}

  // ---------------------------------------------------------------------------
  // The orders the queries sort by

  /** `sortedByDescending { it.files.size }` */
  predicate MoreFiles(a: ProcessRecord, b: ProcessRecord) {
    |a.files| >= |b.files|
  }

  /** `sortedByDescending` on a count */
  predicate MoreCounted(a: (string, int), b: (string, int)) {
    a.1 >= b.1
  }

  /** `sortedBy { it.second.size }` */
  predicate FewerConnections(a: (ProcessRecord, seq<FileRecord>), b: (ProcessRecord, seq<FileRecord>)) {
    |a.1| <= |b.1|
  }

  lemma MoreFilesOrder()
    ensures TotalPreorder(MoreFiles)
  {
  }

  lemma MoreCountedOrder()
    ensures TotalPreorder(MoreCounted)
  {
  }

  lemma FewerConnectionsOrder()
    ensures TotalPreorder(FewerConnections)
  {
  }

  // ---------------------------------------------------------------------------
  // Queries that only look at their argument

  function Commands(recs: seq<ProcessRecord>): seq<string> {
    seq(|recs|, i requires 0 <= i < |recs| => recs[i].command)
  }

  /** `groupBy { it }` on the commands, each group given by its command and
      its size, in order of first appearance. */
  function CommandCounts(commands: seq<string>): seq<(string, int)> {
    var distinct := Distinct(commands);
    seq(|distinct|, i requires 0 <= i < |distinct| => (distinct[i], Count(commands, distinct[i])))
  }

  /** The command groups, largest first. */
  function RankedCommands(commands: seq<string>): seq<(string, int)> {
    MoreCountedOrder();
    SortBy(CommandCounts(commands), MoreCounted)
  }

  /** The top `n` commands of `recs` with their indices; `None` where `take(n)`
      throws for a negative `n`. */
  function TopCommands(recs: seq<ProcessRecord>, n: int): Option<seq<(int, string)>> {
    if n < 0 then None
    else
      var top := Take(RankedCommands(Commands(recs)), n);
      Some(seq(|top|, i requires 0 <= i < |top| => (i, top[i].0)))
  }

  /** All files of `recs`, record after record: `flatMap { it.files }`. */
  function AllFiles(recs: seq<ProcessRecord>): seq<FileRecord> {
    Flatten(seq(|recs|, i requires 0 <= i < |recs| => recs[i].files))
  }

  function TypesOf(files: seq<FileRecord>): seq<string> {
    Distinct(seq(|files|, i requires 0 <= i < |files| => files[i].fileType))
  }

  function TypeOf(f: FileRecord): string {
    f.fileType
  }

  function OfType(files: seq<FileRecord>, t: string): seq<FileRecord> {
    Filter(files, KeyIs(TypeOf, t))
  }

  /** The first components of a list of pairs. */
  function Firsts<K, V>(pairs: seq<(K, V)>): set<K> {
    set i | 0 <= i < |pairs| :: pairs[i].0
  }

  function TypeCounts(files: seq<FileRecord>): seq<(string, int)> {
    var types := TypesOf(files);
    seq(|types|, i requires 0 <= i < |types| => (types[i], |OfType(files, types[i])|))
  }

  /** `recordsByTypes(recs)`: the distinct files (`toSet`) grouped by type,
      each type with the size of its group, most frequent type first. */
  function RecordsByTypes(recs: seq<ProcessRecord>): seq<(string, int)> {
    MoreCountedOrder();
    SortBy(TypeCounts(Distinct(AllFiles(recs))), MoreCounted)
  }

  /** The files of `r` whose protocol is TCP or UDP, in their order. */
  function InternetFiles(r: ProcessRecord, protocol: FileRecord -> string): seq<FileRecord> {
    Filter(r.files, (f: FileRecord) => protocol(f) in InternetProtocols)
  }

  predicate HasConnections(p: (ProcessRecord, seq<FileRecord>)) {
    p.1 != []
  }

  /** The records of `recs` paired with their internet files. */
  function ConnectionPairs(recs: seq<ProcessRecord>, protocol: FileRecord -> string): seq<(ProcessRecord, seq<FileRecord>)> {
    seq(|recs|, i requires 0 <= i < |recs| => (recs[i], InternetFiles(recs[i], protocol)))
  }

  /** `internetConnections(recs)`: each record with an internet file, paired
      with those files, fewest first. */
  function InternetConnections(recs: seq<ProcessRecord>, protocol: FileRecord -> string): seq<(ProcessRecord, seq<FileRecord>)> {
    FewerConnectionsOrder();
    SortBy(Filter(ConnectionPairs(recs, protocol), HasConnections), FewerConnections)
  }

  /** The user of each record, in order. */
  function UserColumn(recs: seq<ProcessRecord>): seq<int> {
    seq(|recs|, i requires 0 <= i < |recs| => recs[i].user)
  }

  function UsersOf(recs: seq<ProcessRecord>): seq<int> {
    Distinct(UserColumn(recs))
  }

  function UserOf(r: ProcessRecord): int {
    r.user
  }

  function OfUser(recs: seq<ProcessRecord>, u: int): seq<ProcessRecord> {
    Filter(recs, KeyIs(UserOf, u))
  }

  /** `groupBy { it.user }`: users in order of first appearance, each with its
      records in their order. */
  function GroupByUser(recs: seq<ProcessRecord>): seq<(int, seq<ProcessRecord>)> {
    var users := UsersOf(recs);
    seq(|users|, i requires 0 <= i < |users| => (users[i], OfUser(recs, users[i])))
  }

  /** `x` is one of the values of `data`. */
  predicate HasValue(data: map<int, ProcessRecord>, x: ProcessRecord) {
    exists k :: k in data && data[k] == x
  }

  // ---------------------------------------------------------------------------
  // The querier

  datatype Querier<M> = Querier(
    data: map<int, ProcessRecord>,
    order: seq<int>,
    userResolver: int -> Option<string>,
    processResolver: int -> Option<M>)
  {
    /** `order` lists every key of `data` once. */
    ghost predicate Valid() {
      && NoDups(order)
      && (forall i :: 0 <= i < |order| ==> order[i] in data)
      && (forall k :: k in data ==> k in order)
    }

    /** `data.values` in iteration order. */
    function Values(): seq<ProcessRecord>
      requires Valid()
    {
      seq(|order|, i requires 0 <= i < |order| => data[order[i]])
    }

    /** `records`: the stored records, most files first. */
    function Records(): (r: seq<ProcessRecord>)
      requires Valid()
      ensures multiset(r) == multiset(Values())
      ensures forall i, j :: 0 <= i < j < |r| ==> |r[i].files| >= |r[j].files|
    {
      MoreFilesOrder();
      SortBy(Values(), MoreFiles)
    }

    /** `recordsByUser` */
    function RecordsByUser(): seq<(int, seq<ProcessRecord>)>
      requires Valid()
    {
      GroupByUser(Records())
    }

    /** `topNCommands(n)` */
    function TopNCommands(n: int): Option<seq<(int, string)>>
      requires Valid()
    {
      TopCommands(Records(), n)
    }

    /** `userResolver.user(id) ?: id.toString()` */
    function UserLabel(id: int): string {
      userResolver(id).GetOr(IntToString(id))
    }

    /** `recordsByUserByTypes()` */
    function RecordsByUserByTypes(): seq<(string, seq<(string, int)>)>
      requires Valid()
    {
      var groups := RecordsByUser();
      seq(|groups|, i requires 0 <= i < |groups| => (UserLabel(groups[i].0), RecordsByTypes(groups[i].1)))
    }

    /** `internetConnectionsByUser()` */
    function InternetConnectionsByUser(protocol: FileRecord -> string): seq<(string, seq<(ProcessRecord, seq<FileRecord>)>)>
      requires Valid()
    {
      var groups := RecordsByUser();
      seq(|groups|, i requires 0 <= i < |groups| => (UserLabel(groups[i].0), InternetConnections(groups[i].1, protocol)))
    }

    /** `enhance()` */
    function Enhance(record: ProcessRecord): EnhancedProcess<M> {
      EnhancedProcess(record, processResolver(record.pid), userResolver(record.user))
    }

    /** `processesByFileSizeWithMetadata()` */
    function ProcessesByFileSizeWithMetadata(): seq<(int, EnhancedProcess<M>)>
      requires Valid()
    {
      var recs := Records();
      seq(|recs|, i requires 0 <= i < |recs| => (i, Enhance(recs[i])))
    }

    /** `processWithMetadata(pid)` */
    function ProcessWithMetadata(pid: int): (r: Option<EnhancedProcess<M>>)
      ensures r.None? <==> pid !in data
      ensures r.Some? ==> r.value.record == data[pid] && r.value.metadata == processResolver(data[pid].pid)
      ensures r.Some? ==> r.value.userName == userResolver(data[pid].user)
    {
      if pid in data then Some(Enhance(data[pid])) else None
    }

    /** `numRecords()` */
    function NumRecords(): (n: int)
      requires Valid()
      ensures n == |data|
    {
      ValuesAreData(this);
      |Records()|
    }
  }

  // ---------------------------------------------------------------------------
  // Properties

  /** The values, in iteration order, are those of the map, one per key. */
  lemma ValuesAreData<M>(q: Querier<M>)
    requires q.Valid()
    ensures |q.Values()| == |q.data|
    ensures forall x :: x in q.Values() <==> HasValue(q.data, x)
  {
    NoDupsCard(q.order);
    assert (set k | k in q.order) == q.data.Keys by {
      forall k | k in q.order
        ensures k in q.data
      {
        var i :| 0 <= i < |q.order| && q.order[i] == k;
      }
      forall k | k in q.data
        ensures k in q.order
      {
      }
    }
    forall x | x in q.Values()
      ensures HasValue(q.data, x)
    {
      var vs := q.Values();
      var i :| 0 <= i < |vs| && vs[i] == x;
      var k := q.order[i];
      assert k in q.data;
      assert q.data[k] == vs[i];
    }
    forall x | HasValue(q.data, x)
      ensures x in q.Values()
    {
      var k :| k in q.data && q.data[k] == x;
      assert k in q.order;
      var i :| 0 <= i < |q.order| && q.order[i] == k;
      assert q.Values()[i] == x;
    }
  }

  /** `records` is a reordering of `data.values`, most files first. */
  lemma RecordsArePermutation<M>(q: Querier<M>)
    requires q.Valid()
    ensures |q.Records()| == |q.data|
    ensures forall x :: x in q.Records() <==> HasValue(q.data, x)
    ensures multiset(q.Records()) == multiset(q.Values())
    ensures forall i, j :: 0 <= i < j < |q.Records()| ==> |q.Records()[i].files| >= |q.Records()[j].files|
  {
    ValuesAreData(q);
    var r := q.Records();
    assert |r| == |multiset(r)| == |multiset(q.Values())| == |q.Values()|;
    forall x
      ensures x in r <==> x in q.Values()
    {
      assert x in r <==> x in multiset(r);
      assert x in q.Values() <==> x in multiset(q.Values());
    }
  }

  /** The command groups, in order of first appearance: every command once,
      with its number of occurrences. */
  lemma CommandCountsSpec(commands: seq<string>)
    ensures var counts := CommandCounts(commands);
      && |counts| == |Distinct(commands)|
      && (forall i :: 0 <= i < |counts| ==> counts[i].0 in commands && counts[i].1 == Count(commands, counts[i].0))
      && (forall i, j :: 0 <= i < j < |counts| ==> counts[i].0 != counts[j].0)
      && Firsts(counts) == set c | c in commands
  {
    var counts := CommandCounts(commands);
    var distinct := Distinct(commands);
    forall c | c in commands
      ensures c in Firsts(counts)
    {
      var k :| 0 <= k < |distinct| && distinct[k] == c;
      assert counts[k].0 == c;
    }
  }

  /** `groupBy { it }` orders the command groups by each command's first
      occurrence. */
  lemma CommandCountsOrder(commands: seq<string>)
    ensures var counts := CommandCounts(commands);
      forall i, j :: 0 <= i < j < |counts| ==> FirstIndex(commands, counts[i].0) < FirstIndex(commands, counts[j].0)
  {
    var counts := CommandCounts(commands);
    var distinct := Distinct(commands);
    forall i, j | 0 <= i < j < |counts|
      ensures FirstIndex(commands, counts[i].0) < FirstIndex(commands, counts[j].0)
    {
      assert counts[i].0 == distinct[i] && counts[j].0 == distinct[j];
      DistinctOrderAt(commands, i, j);
    }
  }

  /** The ranked command groups: every command once, with its number of
      occurrences, largest first. */
  lemma RankedCommandsSpec(commands: seq<string>)
    ensures var s := RankedCommands(commands);
      && |s| == |Distinct(commands)|
      && (forall i :: 0 <= i < |s| ==> s[i].0 in commands && s[i].1 == Count(commands, s[i].0))
      && (forall i, j :: 0 <= i < j < |s| ==> s[i].0 != s[j].0)
      && (forall i, j :: 0 <= i < j < |s| ==> s[i].1 >= s[j].1)
      && Firsts(s) == set c | c in commands
  {
    var counts := CommandCounts(commands);
    var s := RankedCommands(commands);
    CommandCountsSpec(commands);
    KeyedPermutation(counts, s, (c: string) => Count(commands, c));
    PermutationFirsts(counts, s);
  }

  /** `topNCommands(n)`: at most `n` distinct commands of the records, each
      with its index; counts do not increase along the list, and no command
      left out occurs more often than one that was taken. */
  lemma TopCommandsSpec(recs: seq<ProcessRecord>, n: int)
    ensures TopCommands(recs, n).None? <==> n < 0
    ensures n >= 0 ==>
      var r := TopCommands(recs, n).value;
      var commands := Commands(recs);
      && |r| == (if n < |Distinct(commands)| then n else |Distinct(commands)|)
      && (forall i :: 0 <= i < |r| ==> r[i].0 == i && r[i].1 in commands)
      && (forall i, j :: 0 <= i < j < |r| ==> r[i].1 != r[j].1)
      && (forall i, j :: 0 <= i < j < |r| ==> Count(commands, r[i].1) >= Count(commands, r[j].1))
  {
    if n >= 0 {
      var commands := Commands(recs);
      var sorted := RankedCommands(commands);
      RankedCommandsSpec(commands);
      var r := TopCommands(recs, n).value;
      assert forall i :: 0 <= i < |r| ==> r[i] == (i, sorted[i].0);
    }
  }

  /** No command left out of `topNCommands(n)` occurs more often than one
      that was taken. */
  lemma TopCommandsOmitted(recs: seq<ProcessRecord>, n: int)
    requires n >= 0
    ensures var r := TopCommands(recs, n).value;
      var commands := Commands(recs);
      forall c, i :: c in commands && (forall j :: 0 <= j < |r| ==> r[j].1 != c) && 0 <= i < |r| ==>
        Count(commands, c) <= Count(commands, r[i].1)
  {
    if n >= 0 {
      var commands := Commands(recs);
      var sorted := RankedCommands(commands);
      RankedCommandsSpec(commands);
      var r := TopCommands(recs, n).value;
      assert forall i :: 0 <= i < |r| ==> r[i] == (i, sorted[i].0);
      forall c, i | c in commands && (forall j :: 0 <= j < |r| ==> r[j].1 != c) && 0 <= i < |r|
        ensures Count(commands, c) <= Count(commands, r[i].1)
      {
        assert c in Firsts(sorted);
        var k :| 0 <= k < |sorted| && sorted[k].0 == c;
        assert forall j :: 0 <= j < |r| ==> sorted[j].0 != c;
        assert k >= |r|;
        assert r[i].1 == sorted[i].0 && sorted[i].1 >= sorted[k].1;
      }
    }
  }

  /** The type groups of a list of files: one per type, each sized by its files. */
  lemma TypeCountsKeyed(files: seq<FileRecord>)
    ensures forall i, j :: 0 <= i < j < |TypeCounts(files)| ==> TypeCounts(files)[i].0 != TypeCounts(files)[j].0
    ensures forall i :: 0 <= i < |TypeCounts(files)| ==> TypeCounts(files)[i].1 == |OfType(files, TypeCounts(files)[i].0)|
    ensures Firsts(TypeCounts(files)) == set f | f in files :: f.fileType
  {
    var types := TypesOf(files);
    var tc := TypeCounts(files);
    var typeSeq := seq(|files|, i requires 0 <= i < |files| => files[i].fileType);
    forall t | t in Firsts(tc)
      ensures t in set f | f in files :: f.fileType
    {
      var i :| 0 <= i < |tc| && tc[i].0 == t;
      assert types[i] == t;
      assert t in typeSeq;
      var j :| 0 <= j < |typeSeq| && typeSeq[j] == t;
      assert files[j] in files;
    }
    forall t | t in set f | f in files :: f.fileType
      ensures t in Firsts(tc)
    {
      var f :| f in files && f.fileType == t;
      var i :| 0 <= i < |files| && files[i] == f;
      assert typeSeq[i] == t;
      assert t in types;
      var k :| 0 <= k < |types| && types[k] == t;
      assert tc[k].0 == t;
    }
  }

  /** The distinct files of one type, counted. */
  lemma OfTypeCount(recs: seq<ProcessRecord>, t: string)
    ensures |OfType(Distinct(AllFiles(recs)), t)| == |set f | f in AllFiles(recs) && f.fileType == t|
  {
    var files := Distinct(AllFiles(recs));
    FilterNoDups(files, KeyIs(TypeOf, t));
    NoDupsCard(OfType(files, t));
    forall f
      ensures f in OfType(files, t) <==> f in AllFiles(recs) && f.fileType == t
    {
      assert KeyIs(TypeOf, t)(f) == (f.fileType == t);
    }
    assert (set f | f in OfType(files, t)) == (set f | f in AllFiles(recs) && f.fileType == t);
  }

  /** `recordsByTypes(recs)`: every type of a file of `recs` once, with the
      number of distinct files of that type, most frequent first. */
  lemma RecordsByTypesSpec(recs: seq<ProcessRecord>)
    ensures var r := RecordsByTypes(recs);
      && (forall i, j :: 0 <= i < j < |r| ==> r[i].0 != r[j].0)
      && Firsts(r) == (set f | f in AllFiles(recs) :: f.fileType)
      && (forall i :: 0 <= i < |r| ==> r[i].1 == |set f | f in AllFiles(recs) && f.fileType == r[i].0|)
      && (forall i, j :: 0 <= i < j < |r| ==> r[i].1 >= r[j].1)
  {
    var files := Distinct(AllFiles(recs));
    var tc := TypeCounts(files);
    var r := RecordsByTypes(recs);
    TypeCountsKeyed(files);
    KeyedPermutation(tc, r, (t: string) => |OfType(files, t)|);
    forall i | 0 <= i < |r|
      ensures r[i].1 == |set f | f in AllFiles(recs) && f.fileType == r[i].0|
    {
      OfTypeCount(recs, r[i].0);
    }
    PermutationFirsts(tc, r);
    assert (set f | f in files :: f.fileType) == (set f | f in AllFiles(recs) :: f.fileType);
  }

  lemma PermutationFirsts<K, V>(a: seq<(K, V)>, b: seq<(K, V)>)
    requires multiset(a) == multiset(b)
    ensures Firsts(a) == Firsts(b)
  {
    forall k | k in Firsts(a)
      ensures k in Firsts(b)
    {
      var i :| 0 <= i < |a| && a[i].0 == k;
      assert a[i] in multiset(b);
      var j :| 0 <= j < |b| && b[j] == a[i];
    }
    forall k | k in Firsts(b)
      ensures k in Firsts(a)
    {
      var i :| 0 <= i < |b| && b[i].0 == k;
      assert b[i] in multiset(a);
      var j :| 0 <= j < |a| && a[j] == b[i];
    }
  }

  function CountOf(e: (string, int)): int {
    e.1
  }

  function KeyOf(e: (string, int)): string {
    e.0
  }

  /** The type groups of files without repeats count every file once. */
  lemma TypeCountsSum(files: seq<FileRecord>)
    requires NoDups(files)
    ensures SumOf(TypeCounts(files), CountOf) == |files|
  {
    var tc := TypeCounts(files);
    TypeCountsKeyed(files);
    forall i | 0 <= i < |tc|
      ensures CountOf(tc[i]) == |Filter(files, KeyIs(TypeOf, KeyOf(tc[i])))|
    {
      assert CountOf(tc[i]) == |OfType(files, tc[i].0)|;
    }
    forall i, j | 0 <= i < j < |tc|
      ensures KeyOf(tc[i]) != KeyOf(tc[j])
    {
    }
    PartitionSum(files, TypeOf, tc, KeyOf, CountOf);
    forall x | x in files
      ensures KeyIn(TypeOf, KeySet(tc, KeyOf))(x)
    {
      assert x.fileType in Firsts(tc);
      var i :| 0 <= i < |tc| && tc[i].0 == x.fileType;
      assert KeyOf(tc[i]) in KeySet(tc, KeyOf);
      assert TypeOf(x) == KeyOf(tc[i]);
      assert KeyIn(TypeOf, KeySet(tc, KeyOf))(x) == (TypeOf(x) in KeySet(tc, KeyOf));
    }
    FilterAll(files, KeyIn(TypeOf, KeySet(tc, KeyOf)));
  }

  /** The counts of `recordsByTypes(recs)` add up to the number of distinct
      files of `recs`. */
  lemma RecordsByTypesSum(recs: seq<ProcessRecord>)
    ensures SumOf(RecordsByTypes(recs), CountOf) == |set f | f in AllFiles(recs)|
  {
    var files := Distinct(AllFiles(recs));
    TypeCountsSum(files);
    SumPermutation(TypeCounts(files), RecordsByTypes(recs), CountOf);
    NoDupsCard(files);
    assert (set x | x in files) == (set f | f in AllFiles(recs));
  }

  /** A user's label is the resolved name, or else the decimal text of the
      id, which reads back as the id. */
  lemma UserLabelSpec<M>(q: Querier<M>, id: int)
    ensures q.userResolver(id).Some? ==> q.UserLabel(id) == q.userResolver(id).value
    ensures q.userResolver(id).None? && InIntRange(id) ==> ParseInt(q.UserLabel(id)) == Some(id)
  {
    if q.userResolver(id).None? && InIntRange(id) {
      IntToStringRoundTrip(id);
    }
  }

  /** `processesByFileSizeWithMetadata()` numbers the records from 0, each
      with what the resolvers know of its pid and user. */
  lemma ProcessesByFileSizeNumbered<M>(q: Querier<M>)
    requires q.Valid()
    ensures var r := q.ProcessesByFileSizeWithMetadata();
      && |r| == |q.data|
      && (forall i :: 0 <= i < |r| ==> r[i].0 == i)
      && (forall i :: 0 <= i < |r| ==> r[i].1.metadata == q.processResolver(r[i].1.record.pid))
      && (forall i :: 0 <= i < |r| ==> r[i].1.userName == q.userResolver(r[i].1.record.user))
  {
    RecordsArePermutation(q);
    var r := q.ProcessesByFileSizeWithMetadata();
    assert forall i :: 0 <= i < |r| ==> r[i].1 == q.Enhance(q.Records()[i]);
  }

  /** `processesByFileSizeWithMetadata()` lists every stored record once,
      most files first. */
  lemma ProcessesByFileSizeRecords<M>(q: Querier<M>)
    requires q.Valid()
    ensures var r := q.ProcessesByFileSizeWithMetadata();
      && (forall i :: 0 <= i < |r| ==> HasValue(q.data, r[i].1.record))
      && (forall k :: k in q.data ==> exists i :: 0 <= i < |r| && r[i].1.record == q.data[k])
      && (forall i, j :: 0 <= i < j < |r| ==> |r[i].1.record.files| >= |r[j].1.record.files|)
      // each stored record is carried as often as it is stored
      && multiset(EntryRecords(r)) == multiset(q.Values())
  {
    RecordsArePermutation(q);
    ProcessesByFileSizeAre(q);
    SameRecords(q.data, q.Records(), q.ProcessesByFileSizeWithMetadata());
    EntriesAreRecords(q);
  }

  lemma EntriesAreRecords<M>(q: Querier<M>)
    requires q.Valid()
    ensures EntryRecords(q.ProcessesByFileSizeWithMetadata()) == q.Records()
  {
    ProcessesByFileSizeAre(q);
  }

  /** The records of numbered entries, in order. */
  function EntryRecords<M>(r: seq<(int, EnhancedProcess<M>)>): seq<ProcessRecord> {
    seq(|r|, i requires 0 <= i < |r| => r[i].1.record)
  }

  lemma SameRecords<M>(data: map<int, ProcessRecord>, recs: seq<ProcessRecord>, r: seq<(int, EnhancedProcess<M>)>)
    requires |r| == |recs|
    requires forall i :: 0 <= i < |recs| ==> r[i].1.record == recs[i]
    requires forall x :: x in recs <==> HasValue(data, x)
    requires forall i, j :: 0 <= i < j < |recs| ==> |recs[i].files| >= |recs[j].files|
    ensures forall i :: 0 <= i < |r| ==> HasValue(data, r[i].1.record)
    ensures forall k :: k in data ==> exists i :: 0 <= i < |r| && r[i].1.record == data[k]
    ensures forall i, j :: 0 <= i < j < |r| ==> |r[i].1.record.files| >= |r[j].1.record.files|
  {
    forall i | 0 <= i < |r|
      ensures HasValue(data, r[i].1.record)
    {
      assert recs[i] in recs;
    }
    forall k | k in data
      ensures exists i :: 0 <= i < |r| && r[i].1.record == data[k]
    {
      assert HasValue(data, data[k]);
      assert data[k] in recs;
      var i :| 0 <= i < |recs| && recs[i] == data[k];
      assert r[i].1.record == data[k];
    }
  }

  lemma ProcessesByFileSizeAre<M>(q: Querier<M>)
    requires q.Valid()
    ensures |q.ProcessesByFileSizeWithMetadata()| == |q.Records()|
    ensures forall i :: 0 <= i < |q.Records()| ==> q.ProcessesByFileSizeWithMetadata()[i].1.record == q.Records()[i]
  {
  }

  // ---------------------------------------------------------------------------
  // Records by user

  function GroupKey(g: (int, seq<ProcessRecord>)): int {
    g.0
  }

  function GroupSize(g: (int, seq<ProcessRecord>)): int {
    |g.1|
  }

  /** `groupBy { it.user }`: one group per user, holding exactly that user's
      records. */
  lemma GroupByUserKeyed(recs: seq<ProcessRecord>)
    ensures var g := GroupByUser(recs);
      && (forall i, j :: 0 <= i < j < |g| ==> g[i].0 != g[j].0)
      && Firsts(g) == (set r | r in recs :: r.user)
      && (forall i :: 0 <= i < |g| ==> g[i].1 != [])
      && (forall i :: 0 <= i < |g| ==> forall x :: x in g[i].1 <==> x in recs && x.user == g[i].0)
  {
    var g := GroupByUser(recs);
    var users := UsersOf(recs);
    UsersOfSpec(recs);
    GroupByUserMembers(recs);
    forall i | 0 <= i < |g|
      ensures g[i].1 != [] && g[i].0 in set r | r in recs :: r.user
    {
      assert users[i] in users;
      var r :| r in recs && r.user == users[i];
      assert r in g[i].1;
    }
    forall r | r in recs
      ensures r.user in Firsts(g)
    {
      var i :| 0 <= i < |users| && users[i] == r.user;
      assert g[i].0 == r.user;
    }
  }

  /** `groupBy { it.user }` orders the groups by each user's first record. */
  lemma GroupByUserFirstOrder(recs: seq<ProcessRecord>)
    ensures var g := GroupByUser(recs);
      forall i, j :: 0 <= i < j < |g| ==> FirstIndex(UserColumn(recs), g[i].0) < FirstIndex(UserColumn(recs), g[j].0)
  {
    var g := GroupByUser(recs);
    var users := UsersOf(recs);
    DistinctOrder(UserColumn(recs));
    forall i, j | 0 <= i < j < |g|
      ensures FirstIndex(UserColumn(recs), g[i].0) < FirstIndex(UserColumn(recs), g[j].0)
    {
      assert g[i].0 == users[i] && g[j].0 == users[j];
      assert users == Distinct(UserColumn(recs));
      assert FirstIndex(UserColumn(recs), users[i]) < FirstIndex(UserColumn(recs), users[j]);
    }
  }

  /** The users of some records, each once. */
  lemma UsersOfSpec(recs: seq<ProcessRecord>)
    ensures forall r :: r in recs ==> r.user in UsersOf(recs)
    ensures forall u :: u in UsersOf(recs) ==> exists r :: r in recs && r.user == u
  {
    var userSeq := UserColumn(recs);
    forall r | r in recs
      ensures r.user in UsersOf(recs)
    {
      var j :| 0 <= j < |recs| && recs[j] == r;
      assert userSeq[j] == r.user;
    }
    forall u | u in UsersOf(recs)
      ensures exists r :: r in recs && r.user == u
    {
      assert u in userSeq;
      var j :| 0 <= j < |userSeq| && userSeq[j] == u;
      assert recs[j] in recs && recs[j].user == u;
    }
  }

  lemma GroupByUserMembers(recs: seq<ProcessRecord>)
    ensures var g := GroupByUser(recs);
      forall i, x :: 0 <= i < |g| ==> (x in g[i].1 <==> x in recs && x.user == g[i].0)
  {
    var g := GroupByUser(recs);
    var users := UsersOf(recs);
    forall i, x | 0 <= i < |g|
      ensures x in g[i].1 <==> x in recs && x.user == g[i].0
    {
      assert g[i] == (users[i], Filter(recs, KeyIs(UserOf, users[i])));
      assert KeyIs(UserOf, users[i])(x) == (UserOf(x) == users[i]);
    }
  }

  /** Every record is in exactly one group: the group sizes add up to the
      number of records. */
  lemma GroupByUserSum(recs: seq<ProcessRecord>)
    ensures SumOf(GroupByUser(recs), GroupSize) == |recs|
  {
    var g := GroupByUser(recs);
    GroupByUserKeyed(recs);
    forall i, j | 0 <= i < j < |g|
      ensures GroupKey(g[i]) != GroupKey(g[j])
    {
    }
    forall i | 0 <= i < |g|
      ensures GroupSize(g[i]) == |Filter(recs, KeyIs(UserOf, GroupKey(g[i])))|
    {
    }
    PartitionSum(recs, UserOf, g, GroupKey, GroupSize);
    forall x | x in recs
      ensures KeyIn(UserOf, KeySet(g, GroupKey))(x)
    {
      assert x.user in Firsts(g);
      var i :| 0 <= i < |g| && g[i].0 == x.user;
      assert GroupKey(g[i]) in KeySet(g, GroupKey);
    }
    FilterAll(recs, KeyIn(UserOf, KeySet(g, GroupKey)));
  }

  /** The records of one user, in the order of `records`. */
  lemma GroupByUserOrder(recs: seq<ProcessRecord>, le: (ProcessRecord, ProcessRecord) -> bool)
    requires forall i, j :: 0 <= i < j < |recs| ==> le(recs[i], recs[j])
    ensures var g := GroupByUser(recs);
      forall k, i, j :: 0 <= k < |g| && 0 <= i < j < |g[k].1| ==> le(g[k].1[i], g[k].1[j])
  {
    var g := GroupByUser(recs);
    forall k | 0 <= k < |g|
      ensures forall i, j :: 0 <= i < j < |g[k].1| ==> le(g[k].1[i], g[k].1[j])
    {
      FilterKeepsOrder(recs, KeyIs(UserOf, g[k].0), le);
    }
  }

  /** `recordsByUser`: the stored records grouped by user, one group per
      user, every record in the group of its user, most files first within
      a group. */
  lemma RecordsByUserUsers<M>(q: Querier<M>)
    requires q.Valid()
    ensures Firsts(q.RecordsByUser()) == (set k | k in q.data :: q.data[k].user)
  {
    RecordsArePermutation(q);
    GroupByUserKeyed(q.Records());
    SameUsers(q, q.Records());
  }

  lemma SameUsers<M>(q: Querier<M>, recs: seq<ProcessRecord>)
    requires forall x :: x in recs <==> HasValue(q.data, x)
    ensures (set r | r in recs :: r.user) == (set k | k in q.data :: q.data[k].user)
  {
    forall r | r in recs
      ensures r.user in set k | k in q.data :: q.data[k].user
    {
      var k :| k in q.data && q.data[k] == r;
    }
    forall k | k in q.data
      ensures q.data[k].user in set r | r in recs :: r.user
    {
      assert q.data[k] in recs;
    }
  }

  lemma RecordsByUserMembers<M>(q: Querier<M>)
    requires q.Valid()
    ensures var g := q.RecordsByUser();
      forall i, x :: 0 <= i < |g| ==> (x in g[i].1 <==> HasValue(q.data, x) && x.user == g[i].0)
  {
    var recs := q.Records();
    RecordsArePermutation(q);
    GroupByUserKeyed(recs);
  }

  lemma RecordsByUserSpec<M>(q: Querier<M>)
    requires q.Valid()
    ensures var g := q.RecordsByUser();
      && (forall i, j :: 0 <= i < j < |g| ==> g[i].0 != g[j].0)
      && Firsts(g) == (set k | k in q.data :: q.data[k].user)
      && (forall i :: 0 <= i < |g| ==> g[i].1 != [])
      && (forall i :: 0 <= i < |g| ==> forall x :: x in g[i].1 <==>
            HasValue(q.data, x) && x.user == g[i].0)
      && (forall k, i, j :: 0 <= k < |g| && 0 <= i < j < |g[k].1| ==> |g[k].1[i].files| >= |g[k].1[j].files|)
      && SumOf(g, GroupSize) == |q.data|
  {
    var recs := q.Records();
    RecordsArePermutation(q);
    GroupByUserKeyed(recs);
    GroupByUserSum(recs);
    GroupByUserOrder(recs, MoreFiles);
    RecordsByUserUsers(q);
    RecordsByUserMembers(q);
  }

  // ---------------------------------------------------------------------------
  // Internet connections

  /** `internetConnections(recs)`: exactly the records of `recs` with a TCP or
      UDP file, each paired with those files in their order, fewest first. */
  lemma InternetConnectionsSpec(recs: seq<ProcessRecord>, protocol: FileRecord -> string)
    ensures var c := InternetConnections(recs, protocol);
      && (forall i :: 0 <= i < |c| ==> c[i].0 in recs && c[i].1 == InternetFiles(c[i].0, protocol) && c[i].1 != [])
      && (forall r :: r in recs && InternetFiles(r, protocol) != [] ==> exists i :: 0 <= i < |c| && c[i].0 == r)
      && (forall i, j :: 0 <= i < j < |c| ==> |c[i].1| <= |c[j].1|)
      && (forall i, f :: 0 <= i < |c| ==> (f in c[i].1 <==> f in c[i].0.files && protocol(f) in InternetProtocols))
      // each record with an internet file is listed as often as it occurs
      && (forall r :: multiset(RecordsOf(c))[r] == if InternetFiles(r, protocol) != [] then multiset(recs)[r] else 0)
  {
    var kept := Filter(ConnectionPairs(recs, protocol), HasConnections);
    var c := InternetConnections(recs, protocol);
    assert c == SortBy(kept, FewerConnections);
    ConnectionsKept(recs, protocol);
    ConnectionsComplete(recs, protocol);
    ConnectionsCounted(recs, protocol);
  }

  /** The records of a list of connections. */
  function RecordsOf(c: seq<(ProcessRecord, seq<FileRecord>)>): seq<ProcessRecord> {
    seq(|c|, i requires 0 <= i < |c| => c[i].0)
  }

  lemma ConnectionsCounted(recs: seq<ProcessRecord>, protocol: FileRecord -> string)
    ensures var c := InternetConnections(recs, protocol);
      forall r :: multiset(RecordsOf(c))[r] == if InternetFiles(r, protocol) != [] then multiset(recs)[r] else 0
  {
    forall r
      ensures multiset(RecordsOf(InternetConnections(recs, protocol)))[r] ==
        if InternetFiles(r, protocol) != [] then multiset(recs)[r] else 0
    {
      ConnectionsCountedAt(recs, protocol, r);
    }
  }

  lemma ConnectionsCountedAt(recs: seq<ProcessRecord>, protocol: FileRecord -> string, r: ProcessRecord)
    ensures multiset(RecordsOf(InternetConnections(recs, protocol)))[r] ==
      if InternetFiles(r, protocol) != [] then multiset(recs)[r] else 0
  {
    var kept := Filter(ConnectionPairs(recs, protocol), HasConnections);
    var c := InternetConnections(recs, protocol);
    assert c == SortBy(kept, FewerConnections);
    ConnectionsKept(recs, protocol);
    PairCount(c, r, protocol);
    KeptCount(recs, r, protocol);
  }

  /** In a list pairing records with their internet files, a record occurs as
      often as its pair. */
  lemma {:induction false} PairCount(c: seq<(ProcessRecord, seq<FileRecord>)>, r: ProcessRecord, protocol: FileRecord -> string)
    requires forall i :: 0 <= i < |c| ==> c[i].1 == InternetFiles(c[i].0, protocol)
    ensures multiset(RecordsOf(c))[r] == multiset(c)[(r, InternetFiles(r, protocol))]
    decreases |c|
  {
    if c != [] {
      PairCount(c[1..], r, protocol);
      assert RecordsOf(c)[1..] == RecordsOf(c[1..]);
      CountHead(RecordsOf(c), r);
      CountHead(c, (r, InternetFiles(r, protocol)));
    }
  }

  /** The pair of a record is kept once per occurrence of a record with an
      internet file. */
  lemma {:induction false} KeptCount(recs: seq<ProcessRecord>, r: ProcessRecord, protocol: FileRecord -> string)
    ensures multiset(Filter(ConnectionPairs(recs, protocol), HasConnections))[(r, InternetFiles(r, protocol))] ==
      if InternetFiles(r, protocol) != [] then multiset(recs)[r] else 0
    decreases |recs|
  {
    if recs != [] {
      KeptCount(recs[1..], r, protocol);
      KeptStep(recs, r, protocol);
      CountHead(recs, r);
    }
  }

  /** The first record's pair is kept, or not, ahead of the rest. */
  lemma KeptStep(recs: seq<ProcessRecord>, r: ProcessRecord, protocol: FileRecord -> string)
    requires recs != []
    ensures var key := (r, InternetFiles(r, protocol));
      multiset(Filter(ConnectionPairs(recs, protocol), HasConnections))[key] ==
        (if recs[0] == r && InternetFiles(r, protocol) != [] then 1 else 0) +
        multiset(Filter(ConnectionPairs(recs[1..], protocol), HasConnections))[key]
  {
    var pairs := ConnectionPairs(recs, protocol);
    var head := if HasConnections(pairs[0]) then [pairs[0]] else [];
    assert pairs[1..] == ConnectionPairs(recs[1..], protocol);
    assert Filter(pairs, HasConnections) == head + Filter(pairs[1..], HasConnections);
  }

  lemma ConnectionsKept(recs: seq<ProcessRecord>, protocol: FileRecord -> string)
    ensures var c := InternetConnections(recs, protocol);
      forall i :: 0 <= i < |c| ==> c[i].0 in recs && c[i].1 == InternetFiles(c[i].0, protocol) && c[i].1 != []
  {
    var pairs := ConnectionPairs(recs, protocol);
    var kept := Filter(pairs, HasConnections);
    var c := InternetConnections(recs, protocol);
    assert c == SortBy(kept, FewerConnections);
    forall i | 0 <= i < |c|
      ensures c[i].0 in recs && c[i].1 == InternetFiles(c[i].0, protocol) && c[i].1 != []
    {
      assert c[i] in multiset(kept);
      assert c[i] in kept;
      var j :| 0 <= j < |pairs| && pairs[j] == c[i];
      assert recs[j] in recs;
    }
  }

  lemma ConnectionsComplete(recs: seq<ProcessRecord>, protocol: FileRecord -> string)
    ensures var c := InternetConnections(recs, protocol);
      forall r :: r in recs && InternetFiles(r, protocol) != [] ==> exists i :: 0 <= i < |c| && c[i].0 == r
  {
    var pairs := ConnectionPairs(recs, protocol);
    var kept := Filter(pairs, HasConnections);
    var c := InternetConnections(recs, protocol);
    assert c == SortBy(kept, FewerConnections);
    forall r | r in recs && InternetFiles(r, protocol) != []
      ensures exists i :: 0 <= i < |c| && c[i].0 == r
    {
      var j :| 0 <= j < |recs| && recs[j] == r;
      assert HasConnections(pairs[j]);
      assert pairs[j] in kept;
      assert pairs[j] in multiset(c);
      var i :| 0 <= i < |c| && c[i] == pairs[j];
    }
  }

  /** `recordsByUserByTypes()`: for every user, their label and the types of
      the distinct files of their records, most frequent first. */
  lemma RecordsByUserByTypesSpec<M>(q: Querier<M>)
    requires q.Valid()
    ensures var g := q.RecordsByUser();
      var r := q.RecordsByUserByTypes();
      && |r| == |g|
      && (forall i :: 0 <= i < |r| ==> r[i].0 == q.UserLabel(g[i].0))
      && (forall i, t :: 0 <= i < |r| ==> (t in Firsts(r[i].1) <==>
            exists k, f :: k in q.data && q.data[k].user == g[i].0 && f in q.data[k].files && f.fileType == t))
      && (forall i, a, b :: 0 <= i < |r| && 0 <= a < b < |r[i].1| ==> r[i].1[a].1 >= r[i].1[b].1)
      // each type once per user, counted by the distinct files of that user's records
      && (forall i, a, b :: 0 <= i < |r| && 0 <= a < b < |r[i].1| ==> r[i].1[a].0 != r[i].1[b].0)
      && (forall i, a :: 0 <= i < |r| && 0 <= a < |r[i].1| ==>
            r[i].1[a].1 == |set f | f in AllFiles(g[i].1) && f.fileType == r[i].1[a].0|)
  {
    var g := q.RecordsByUser();
    var r := q.RecordsByUserByTypes();
    RecordsByUserSpec(q);
    forall i | 0 <= i < |r|
      ensures forall t :: t in Firsts(r[i].1) <==>
        exists k, f :: k in q.data && q.data[k].user == g[i].0 && f in q.data[k].files && f.fileType == t
      ensures forall a, b :: 0 <= a < b < |r[i].1| ==> r[i].1[a].1 >= r[i].1[b].1
      ensures forall a, b :: 0 <= a < b < |r[i].1| ==> r[i].1[a].0 != r[i].1[b].0
      ensures forall a :: 0 <= a < |r[i].1| ==>
        r[i].1[a].1 == |set f | f in AllFiles(g[i].1) && f.fileType == r[i].1[a].0|
    {
      UserTypes(q, g[i].0, g[i].1);
      RecordsByTypesSpec(g[i].1);
    }
  }

  /** The types of the files of one user's group. */
  lemma UserTypes<M>(q: Querier<M>, u: int, group: seq<ProcessRecord>)
    requires forall x :: x in group <==> HasValue(q.data, x) && x.user == u
    ensures forall t :: t in Firsts(RecordsByTypes(group)) <==>
      exists k, f :: k in q.data && q.data[k].user == u && f in q.data[k].files && f.fileType == t
    ensures forall a, b :: 0 <= a < b < |RecordsByTypes(group)| ==> RecordsByTypes(group)[a].1 >= RecordsByTypes(group)[b].1
  {
    RecordsByTypesSpec(group);
    var files := AllFiles(group);
    var inner := seq(|group|, i requires 0 <= i < |group| => group[i].files);
    forall f | f in files
      ensures exists k :: k in q.data && q.data[k].user == u && f in q.data[k].files
    {
      var i :| 0 <= i < |inner| && f in inner[i];
      assert group[i] in group;
      var k :| k in q.data && q.data[k] == group[i];
      assert q.data[k].user == u && f in q.data[k].files;
    }
    forall k, f | k in q.data && q.data[k].user == u && f in q.data[k].files
      ensures f.fileType in set f | f in files :: f.fileType
    {
      assert q.data[k] in group;
      var i :| 0 <= i < |group| && group[i] == q.data[k];
      assert f in inner[i];
      assert f in files;
    }
  }

  /** `internetConnectionsByUser()`: for every user, their label and the
      records of that user with a TCP or UDP file, with those files. */
  lemma InternetConnectionsByUserSpec<M>(q: Querier<M>, protocol: FileRecord -> string)
    requires q.Valid()
    ensures var g := q.RecordsByUser();
      var r := q.InternetConnectionsByUser(protocol);
      && |r| == |g|
      && (forall i :: 0 <= i < |r| ==> r[i].0 == q.UserLabel(g[i].0))
      && (forall i, j :: 0 <= i < |r| && 0 <= j < |r[i].1| ==>
            && HasValue(q.data, r[i].1[j].0)
            && r[i].1[j].0.user == g[i].0
            && r[i].1[j].1 == InternetFiles(r[i].1[j].0, protocol) && r[i].1[j].1 != [])
      && (forall i, k :: 0 <= i < |r| && k in q.data && q.data[k].user == g[i].0 && InternetFiles(q.data[k], protocol) != [] ==>
            exists j :: 0 <= j < |r[i].1| && r[i].1[j].0 == q.data[k])
      // a user's list holds each of their connected records as often as
      // `data.values` does
      && (forall i, x :: 0 <= i < |r| ==>
            multiset(RecordsOf(r[i].1))[x] ==
              if x.user == g[i].0 && InternetFiles(x, protocol) != [] then multiset(q.Values())[x] else 0)
  {
    var g := q.RecordsByUser();
    var r := q.InternetConnectionsByUser(protocol);
    RecordsByUserMembers(q);
    RecordsArePermutation(q);
    forall i | 0 <= i < |r|
      ensures forall j :: 0 <= j < |r[i].1| ==>
            && HasValue(q.data, r[i].1[j].0)
            && r[i].1[j].0.user == g[i].0
            && r[i].1[j].1 == InternetFiles(r[i].1[j].0, protocol) && r[i].1[j].1 != []
      ensures forall k :: k in q.data && q.data[k].user == g[i].0 && InternetFiles(q.data[k], protocol) != [] ==>
            exists j :: 0 <= j < |r[i].1| && r[i].1[j].0 == q.data[k]
      ensures forall x ::
        multiset(RecordsOf(r[i].1))[x] ==
          (if x.user == g[i].0 && InternetFiles(x, protocol) != [] then multiset(q.Values())[x] else 0)
    {
      assert r[i].1 == InternetConnections(g[i].1, protocol);
      UserConnections(q, g[i].0, g[i].1, protocol);
      assert g[i].1 == OfUser(q.Records(), g[i].0);
      UserConnectionsCounted(r[i].1, q.Records(), q.Values(), g[i].0, protocol);
    }
  }

  /** A user's connections count every connected record of that user as often
      as `values` holds it, `values` being any reordering of `recs`. */
  lemma UserConnectionsCounted(c: seq<(ProcessRecord, seq<FileRecord>)>, recs: seq<ProcessRecord>,
                               values: seq<ProcessRecord>, u: int, protocol: FileRecord -> string)
    requires c == InternetConnections(OfUser(recs, u), protocol)
    requires multiset(recs) == multiset(values)
    ensures forall x ::
      multiset(RecordsOf(c))[x] ==
        (if x.user == u && InternetFiles(x, protocol) != [] then multiset(values)[x] else 0)
  {
    forall x
      ensures multiset(RecordsOf(c))[x] ==
        if x.user == u && InternetFiles(x, protocol) != [] then multiset(values)[x] else 0
    {
      GroupConnectionsCounted(recs, u, protocol, x);
    }
  }

  /** The connections of one user's records count each connected record of
      that user as often as it occurs. */
  lemma GroupConnectionsCounted(recs: seq<ProcessRecord>, u: int, protocol: FileRecord -> string, x: ProcessRecord)
    ensures multiset(RecordsOf(InternetConnections(OfUser(recs, u), protocol)))[x] ==
      (if x.user == u && InternetFiles(x, protocol) != [] then multiset(recs)[x] else 0)
  {
    ConnectionsCountedAt(OfUser(recs, u), protocol, x);
    FilterCount(recs, KeyIs(UserOf, u), x);
    assert KeyIs(UserOf, u)(x) == (UserOf(x) == u);
  }

  /** The internet connections of one user's group. */
  lemma UserConnections<M>(q: Querier<M>, u: int, group: seq<ProcessRecord>, protocol: FileRecord -> string)
    requires forall x :: x in group <==> HasValue(q.data, x) && x.user == u
    ensures var c := InternetConnections(group, protocol);
      && (forall j :: 0 <= j < |c| ==>
            && HasValue(q.data, c[j].0)
            && c[j].0.user == u
            && c[j].1 == InternetFiles(c[j].0, protocol) && c[j].1 != [])
      && (forall k :: k in q.data && q.data[k].user == u && InternetFiles(q.data[k], protocol) != [] ==>
            exists j :: 0 <= j < |c| && c[j].0 == q.data[k])
  {
    InternetConnectionsSpec(group, protocol);
    forall k | k in q.data && q.data[k].user == u
      ensures q.data[k] in group
    {
    }
  }
}
