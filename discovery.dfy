/**
 * `preprocessing_pipeline.discover_documents`: choosing one source document
 * per (student, week) from the raw-data directory listing and attaching its
 * configuration. The listing (in `rglob` order) and the modification times
 * are inputs.
 */
module Discovery {
  import opened Wrappers
  import opened Text

  /** One entry of the recursive directory listing. */
  datatype FileEntry = FileEntry(path: string, name: string, isFile: bool, mtime: int)

  /** The parts of the preprocessing configuration the selection reads; absent keys are `None`. */
  datatype WeekConfig = WeekConfig(tasks: Option<int>, notes: Option<string>)
  datatype StudentConfig = StudentConfig(labelSet: Option<string>, notes: Option<string>, weeks: map<string, WeekConfig>)
  datatype Config = Config(labelSets: set<string>, defaultLabelSet: Option<string>, defaultTasks: Option<int>, students: map<string, StudentConfig>)

  /** `DocumentRecord`, without the week's raw configuration dictionary. */
  datatype DocumentRecord = DocumentRecord(
    student: string, week: string, path: string, suffix: string,
    labelSet: string, expectedTasks: int, notes: Option<string>, mtime: int)

  function Key(r: DocumentRecord): (string, string) {
    (r.student, r.week)
  }

  predicate AllDigits(s: string) {
    forall k :: 0 <= k < |s| ==> IsDigit(s[k])
  }

  /**
   * `#(\d+)\.\s*Week\s*(\d+)` (IGNORECASE) at `p`: digits cannot be given
   * back to `\.` nor spaces to `Week`, so the greedy reading is the match.
   * Returns the two groups.
   */
  function DocMatchAt(name: string, p: nat): (r: Option<(string, string)>)
    ensures r.Some? ==> |r.value.0| > 0 && |r.value.1| > 0 && AllDigits(r.value.0) && AllDigits(r.value.1)
  {
    if !(p < |name| && name[p] == '#') then None
    else
      var d1 := RunLength(name, p + 1, IsDigit);
      var q := p + 1 + d1;
      if d1 > 0 && q < |name| && name[q] == '.' then
        var w := q + 1 + RunLength(name, q + 1, IsSpace);
        if StartsAtCI(name, w, "week") then
          var v := w + 4 + RunLength(name, w + 4, IsSpace);
          var d2 := RunLength(name, v, IsDigit);
          if d2 > 0 then Some((name[p + 1..q], name[v..v + d2])) else None
        else None
      else None
  }

  /** `DOC_PATTERN.search(name)`: the leftmost match. */
  function DocSearch(name: string, from: nat): (r: Option<(string, string)>)
    ensures r.Some? ==> |r.value.0| > 0 && |r.value.1| > 0 && AllDigits(r.value.0) && AllDigits(r.value.1)
    decreases |name| - from
  {
    if from >= |name| then None
    else if DocMatchAt(name, from).Some? then DocMatchAt(name, from)
    else DocSearch(name, from + 1)
  }

  /** The index of the last '.' in `s[..n]`. */
  function LastDot(s: string, n: nat): (r: Option<nat>)
    requires n <= |s|
    ensures r.Some? ==> r.value < n && s[r.value] == '.'
    decreases n
  {
    if n == 0 then None else if s[n - 1] == '.' then Some(n - 1) else LastDot(s, n - 1)
  }

  /** `PurePath(name).suffix`: from the last dot, unless the dot starts or ends the name. */
  function Suffix(name: string): string {
    match LastDot(name, |name|)
    case Some(i) => if 0 < i < |name| - 1 then name[i..] else ""
    case None => ""
  }

  function DefaultLabelSet(c: Config): string {
    c.defaultLabelSet.GetOr("english_standard")
  }

  /** The record built for a matching file. */
  function MakeRecord(c: Config, f: FileEntry, student: string, week: string, suffix: string): DocumentRecord {
    var sc := if student in c.students then c.students[student] else StudentConfig(None, None, map[]);
    var wc := if week in sc.weeks then sc.weeks[week] else WeekConfig(None, None);
    var labelSet := sc.labelSet.GetOr(DefaultLabelSet(c));
    var notes := if wc.notes.Some? && wc.notes.value != "" then wc.notes else sc.notes;
    DocumentRecord(student, week, f.path, suffix,
      if labelSet in c.labelSets then labelSet else DefaultLabelSet(c),
      wc.tasks.GetOr(c.defaultTasks.GetOr(3)), notes, f.mtime)
  }

  /** The record a listing entry contributes: none for directories, other suffixes and names without the pattern. */
  function Candidate(c: Config, f: FileEntry): Option<DocumentRecord> {
    var suffix := Lower(Suffix(f.name));
    if !f.isFile || suffix !in {".docx", ".pdf"} then None
    else
      match DocSearch(f.name, 0)
      case None => None
      case Some(g) => Some(MakeRecord(c, f, g.0, g.1, suffix))
  }

  /** The position of `key` in the insertion-ordered dictionary. */
  function IndexOfKey(docs: seq<DocumentRecord>, key: (string, string)): (r: Option<nat>)
    ensures r.Some? ==> r.value < |docs| && Key(docs[r.value]) == key
    ensures r.None? ==> forall j :: 0 <= j < |docs| ==> Key(docs[j]) != key
    decreases |docs|
  {
    if |docs| == 0 then None
    else if Key(docs[|docs| - 1]) == key then Some(|docs| - 1)
    else IndexOfKey(docs[..|docs| - 1], key)
  }

  /** The new record replaces the kept one: DOCX over PDF, or the same suffix and strictly newer. */
  predicate Replaces(existing: DocumentRecord, rec: DocumentRecord) {
    (existing.suffix == ".pdf" && rec.suffix == ".docx") ||
    (existing.suffix == rec.suffix && rec.mtime > existing.mtime)
  }

  function Consider(docs: seq<DocumentRecord>, rec: DocumentRecord): seq<DocumentRecord> {
    match IndexOfKey(docs, Key(rec))
    case None => docs + [rec]
    case Some(j) => if Replaces(docs[j], rec) then docs[j := rec] else docs
  }

  /** The record each listing entry contributes, in listing order. */
  function Candidates(c: Config, files: seq<FileEntry>): (r: seq<Option<DocumentRecord>>)
    ensures |r| == |files|
    decreases |files|
  {
    if |files| == 0 then [] else Candidates(c, files[..|files| - 1]) + [Candidate(c, files[|files| - 1])]
  }

  /** The dictionary after the given candidates, as its values in insertion order. */
  function Keep(cands: seq<Option<DocumentRecord>>): seq<DocumentRecord>
    decreases |cands|
  {
    if |cands| == 0 then [] else AfterCandidate(Keep(cands[..|cands| - 1]), cands[|cands| - 1])
  }

  /** The dictionary after one more file: unchanged unless the file is a candidate. */
  function AfterCandidate(prev: seq<DocumentRecord>, cand: Option<DocumentRecord>): seq<DocumentRecord> {
    match cand
    case None => prev
    case Some(rec) => Consider(prev, rec)
  }

  function Select(c: Config, files: seq<FileEntry>): seq<DocumentRecord> {
    Keep(Candidates(c, files))
  }

  // ---------------------------------------------------------------------
  // `sorted(..., key=lambda rec: (int(rec.student_id), int(rec.week)))`.
  // ---------------------------------------------------------------------

  predicate NumericIds(r: DocumentRecord) {
    AllDigits(r.student) && AllDigits(r.week)
  }

  /** `int(s)` on a string of digits; every selected record has such ids (`SelectInvariant`). */
  function IdValue(s: string): nat {
    if AllDigits(s) then ParseNat(s) else 0
  }

  predicate KeyLe(a: DocumentRecord, b: DocumentRecord) {
    IdValue(a.student) < IdValue(b.student) ||
    (IdValue(a.student) == IdValue(b.student) && IdValue(a.week) <= IdValue(b.week))
  }

  predicate AllNumeric(docs: seq<DocumentRecord>) {
    forall k :: 0 <= k < |docs| ==> NumericIds(docs[k])
  }

  predicate SortedDocs(docs: seq<DocumentRecord>) {
    forall i, j :: 0 <= i < j < |docs| ==> KeyLe(docs[i], docs[j])
  }

  /** Inserting after every record whose key is not larger keeps equal keys in their original order. */
  function Insert(x: DocumentRecord, s: seq<DocumentRecord>): seq<DocumentRecord>
    decreases |s|
  {
    if |s| == 0 then [x]
    else if KeyLe(s[|s| - 1], x) then s + [x]
    else Insert(x, s[..|s| - 1]) + [s[|s| - 1]]
  }

  function SortByIds(docs: seq<DocumentRecord>): seq<DocumentRecord>
    decreases |docs|
  {
    if |docs| == 0 then [] else Insert(docs[|docs| - 1], SortByIds(docs[..|docs| - 1]))
  }

  /** Insertion keeps every record and adds `x`. */
  lemma {:induction false} InsertPerm(x: DocumentRecord, s: seq<DocumentRecord>)
    ensures multiset(Insert(x, s)) == multiset(s) + multiset{x}
    decreases |s|
  {
    if |s| > 0 {
      assert s == s[..|s| - 1] + [s[|s| - 1]];
      if !KeyLe(s[|s| - 1], x) {
        InsertPerm(x, s[..|s| - 1]);
      }
    }
  }

  /** Insertion into a sorted list keeps it sorted. */
  lemma {:induction false} InsertSorted(x: DocumentRecord, s: seq<DocumentRecord>)
    requires SortedDocs(s)
    ensures SortedDocs(Insert(x, s))
    decreases |s|
  {
    if |s| > 0 {
      var init := s[..|s| - 1];
      var last := s[|s| - 1];
      if !KeyLe(last, x) {
        InsertSorted(x, init);
        InsertPerm(x, init);
        var r := Insert(x, init);
        forall k | 0 <= k < |r| ensures KeyLe(r[k], last) {
          assert r[k] in multiset(r);
          if r[k] != x {
            assert r[k] in multiset(init);
            var m :| 0 <= m < |init| && init[m] == r[k];
            assert s[m] == init[m];
          }
        }
      }
    }
  }

  /** Inserting the last record into a rearrangement of the others gives a rearrangement of all of them. */
  lemma InsertLastPerm(docs: seq<DocumentRecord>, sorted: seq<DocumentRecord>)
    requires |docs| > 0
    requires multiset(sorted) == multiset(docs[..|docs| - 1])
    ensures multiset(Insert(docs[|docs| - 1], sorted)) == multiset(docs)
  {
    InsertPerm(docs[|docs| - 1], sorted);
    assert docs == docs[..|docs| - 1] + [docs[|docs| - 1]];
  }

  lemma {:induction false} SortByIdsPerm(docs: seq<DocumentRecord>)
    ensures multiset(SortByIds(docs)) == multiset(docs)
    decreases |docs|
  {
    if |docs| > 0 {
      SortByIdsPerm(docs[..|docs| - 1]);
      InsertLastPerm(docs, SortByIds(docs[..|docs| - 1]));
    }
  }

  lemma {:induction false} SortByIdsSorted(docs: seq<DocumentRecord>)
    ensures SortedDocs(SortByIds(docs))
    decreases |docs|
  {
    if |docs| > 0 {
      var init := docs[..|docs| - 1];
      SortByIdsSorted(init);
      InsertSorted(docs[|docs| - 1], SortByIds(init));
    }
  }

  /** Sorting by (int(student_id), int(week)) is a sorted permutation. */
  lemma SortByIdsSpec(docs: seq<DocumentRecord>)
    ensures multiset(SortByIds(docs)) == multiset(docs)
    ensures SortedDocs(SortByIds(docs))
  {
    SortByIdsPerm(docs);
    SortByIdsSorted(docs);
  }

  /** The documents the pipeline processes, in order. */
  function Discovered(c: Config, files: seq<FileEntry>): seq<DocumentRecord> {
    SortByIds(Select(c, files))
  }

  // ---------------------------------------------------------------------
  // The loop.
  // ---------------------------------------------------------------------

  lemma SelectSnoc(c: Config, files: seq<FileEntry>, i: nat)
    requires i < |files|
    ensures Select(c, files[..i + 1]) == AfterCandidate(Select(c, files[..i]), Candidate(c, files[i]))
  {
    assert files[..i + 1][..i] == files[..i];
    var cands := Candidates(c, files[..i + 1]);
    assert cands == Candidates(c, files[..i]) + [Candidate(c, files[i])];
    assert cands[..i] == Candidates(c, files[..i]);
  }

  /** One pass of the loop over the listing. */
  method ConsiderFile(c: Config, documents: seq<DocumentRecord>, f: FileEntry) returns (documents': seq<DocumentRecord>)
    ensures documents' == AfterCandidate(documents, Candidate(c, f))
  {
    documents' := documents;
    var suffix := Lower(Suffix(f.name));
    if f.isFile && suffix in {".docx", ".pdf"} {
      var m := DocSearch(f.name, 0);
      if m.Some? {
        var record := MakeRecord(c, f, m.value.0, m.value.1, suffix);
        var existing := IndexOfKey(documents, Key(record));
        if existing.None? {
          documents' := documents + [record];
        } else {
          var j := existing.value;
          if documents[j].suffix == ".pdf" && record.suffix == ".docx" {
            documents' := documents[j := record];
          } else if documents[j].suffix == record.suffix {
            if record.mtime > documents[j].mtime {
              documents' := documents[j := record];
            }
          }
        }
      }
    }
  }

  /** `discover_documents(config)` over the listing `files`. */
  method DiscoverDocuments(c: Config, files: seq<FileEntry>) returns (sortedDocs: seq<DocumentRecord>)
    ensures sortedDocs == Discovered(c, files)
  {
    var documents: seq<DocumentRecord> := [];
    var i := 0;
    while i < |files|
      invariant 0 <= i <= |files|
      invariant documents == Select(c, files[..i])
    {
      SelectSnoc(c, files, i);
      documents := ConsiderFile(c, documents, files[i]);
      i := i + 1;
    }
    assert files[..i] == files;
    sortedDocs := SortByIds(documents);
  }

  // ---------------------------------------------------------------------
  // Properties.
  // ---------------------------------------------------------------------

  predicate UniqueKeys(docs: seq<DocumentRecord>) {
    forall i, j :: 0 <= i < j < |docs| ==> Key(docs[i]) != Key(docs[j])
  }

  /** The record's label set is a configured one, or the default. */
  predicate KnownLabelSet(c: Config, r: DocumentRecord) {
    r.labelSet in c.labelSets || r.labelSet == DefaultLabelSet(c)
  }

  /** What a contributed record looks like. */
  predicate GoodCandidate(c: Config, o: Option<DocumentRecord>) {
    o.Some? ==> NumericIds(o.value) && KnownLabelSet(c, o.value) && o.value.suffix in {".docx", ".pdf"}
  }

  predicate AllGood(c: Config, cands: seq<Option<DocumentRecord>>) {
    forall k :: 0 <= k < |cands| ==> GoodCandidate(c, cands[k])
  }

  lemma CandidateShape(c: Config, f: FileEntry)
    ensures GoodCandidate(c, Candidate(c, f))
    ensures Candidate(c, f).Some? ==> Candidate(c, f).value.mtime == f.mtime && Candidate(c, f).value.path == f.path
  {
  }

  lemma {:induction false} CandidatesGood(c: Config, files: seq<FileEntry>)
    ensures AllGood(c, Candidates(c, files))
    decreases |files|
  {
    if |files| > 0 {
      CandidatesGood(c, files[..|files| - 1]);
      CandidateShape(c, files[|files| - 1]);
    }
  }

  /** The record kept for `key`, if any. */
  function RecordFor(docs: seq<DocumentRecord>, key: (string, string)): Option<DocumentRecord> {
    match IndexOfKey(docs, key)
    case None => None
    case Some(j) => Some(docs[j])
  }

  /** In a list with unique keys, the index of a key is the one position holding it. */
  lemma UniqueIndex(docs: seq<DocumentRecord>, key: (string, string), j: nat)
    requires j < |docs| && Key(docs[j]) == key
    requires forall i :: 0 <= i < |docs| && i != j ==> Key(docs[i]) != key
    ensures IndexOfKey(docs, key) == Some(j)
  {
  }

  lemma ConsiderOther(docs: seq<DocumentRecord>, rec: DocumentRecord, key: (string, string))
    requires UniqueKeys(docs) && Key(rec) != key
    ensures RecordFor(Consider(docs, rec), key) == RecordFor(docs, key)
  {
    var d := Consider(docs, rec);
    match IndexOfKey(docs, key)
    case None => {
      forall j | 0 <= j < |d| ensures Key(d[j]) != key {
      }
      assert IndexOfKey(d, key).None?;
    }
    case Some(j) => {
      UniqueIndex(d, key, j);
    }
  }

  lemma ConsiderSame(docs: seq<DocumentRecord>, rec: DocumentRecord)
    requires UniqueKeys(docs)
    ensures RecordFor(Consider(docs, rec), Key(rec)) ==
      match RecordFor(docs, Key(rec))
      case None => Some(rec)
      case Some(ex) => if Replaces(ex, rec) then Some(rec) else Some(ex)
  {
    var key := Key(rec);
    match IndexOfKey(docs, key)
    case None => {
      UniqueIndex(docs + [rec], key, |docs|);
    }
    case Some(j) => {
      if Replaces(docs[j], rec) {
        UniqueIndex(docs[j := rec], key, j);
      }
    }
  }

  /** The dictionary never holds two records for one (student, week). */
  lemma {:induction false} KeepUnique(cands: seq<Option<DocumentRecord>>)
    ensures UniqueKeys(Keep(cands))
    decreases |cands|
  {
    if |cands| > 0 {
      KeepUnique(cands[..|cands| - 1]);
    }
  }

  /** Every kept record is one of the candidates. */
  lemma {:induction false} KeepFrom(cands: seq<Option<DocumentRecord>>)
    ensures forall k :: 0 <= k < |Keep(cands)| ==> Some(Keep(cands)[k]) in cands
    decreases |cands|
  {
    if |cands| > 0 {
      var init := cands[..|cands| - 1];
      KeepFrom(init);
      forall k | 0 <= k < |Keep(cands)| ensures Some(Keep(cands)[k]) in cands {
        if Some(Keep(cands)[k]) != cands[|cands| - 1] {
          assert Some(Keep(cands)[k]) in init;
        }
      }
    }
  }

  /** The selection holds one record per (student, week), with numeric ids, a known label set and a supported suffix. */
  lemma SelectInvariant(c: Config, files: seq<FileEntry>)
    ensures UniqueKeys(Select(c, files)) && AllNumeric(Select(c, files))
    ensures forall k :: 0 <= k < |Select(c, files)| ==> KnownLabelSet(c, Select(c, files)[k])
    ensures forall k :: 0 <= k < |Select(c, files)| ==> Select(c, files)[k].suffix in {".docx", ".pdf"}
  {
    var cands := Candidates(c, files);
    KeepUnique(cands);
    KeepFrom(cands);
    CandidatesGood(c, files);
    forall k | 0 <= k < |Keep(cands)| ensures GoodCandidate(c, Some(Keep(cands)[k])) {
      var m :| 0 <= m < |cands| && cands[m] == Some(Keep(cands)[k]);
    }
  }

  /** A candidate for `key` among `cands`. */
  predicate Seen(cands: seq<Option<DocumentRecord>>, key: (string, string), r: DocumentRecord) {
    exists j :: 0 <= j < |cands| && cands[j] == Some(r) && Key(r) == key
  }

  lemma SeenSnoc(cands: seq<Option<DocumentRecord>>, key: (string, string), r: DocumentRecord)
    requires |cands| > 0
    ensures Seen(cands, key, r) <==>
      Seen(cands[..|cands| - 1], key, r) || (cands[|cands| - 1] == Some(r) && Key(r) == key)
  {
    var init := cands[..|cands| - 1];
    if Seen(cands, key, r) {
      var j :| 0 <= j < |cands| && cands[j] == Some(r) && Key(r) == key;
      if j < |init| {
        assert init[j] == cands[j];
      }
    }
    if Seen(init, key, r) {
      var j :| 0 <= j < |init| && init[j] == Some(r) && Key(r) == key;
      assert cands[j] == init[j];
    }
  }

  /** How the record kept for `key` changes with one more candidate. */
  lemma KeepStep(cands: seq<Option<DocumentRecord>>, key: (string, string))
    requires |cands| > 0
    ensures var prev := RecordFor(Keep(cands[..|cands| - 1]), key);
      RecordFor(Keep(cands), key) ==
        match cands[|cands| - 1]
        case Some(rec) =>
          if Key(rec) != key then prev
          else if prev.None? then Some(rec)
          else if Replaces(prev.value, rec) then Some(rec)
          else prev
        case None => prev
  {
    var init := cands[..|cands| - 1];
    KeepUnique(init);
    match cands[|cands| - 1]
    case None => {
    }
    case Some(rec) => {
      if Key(rec) == key {
        ConsiderSame(Keep(init), rec);
      } else {
        ConsiderOther(Keep(init), rec, key);
      }
    }
  }

  /** Every (student, week) some candidate names has a record, and no other. */
  lemma {:induction false} KeepCovers(cands: seq<Option<DocumentRecord>>, key: (string, string))
    ensures RecordFor(Keep(cands), key).Some? <==> exists r :: Seen(cands, key, r)
    decreases |cands|
  {
    if |cands| > 0 {
      var init := cands[..|cands| - 1];
      KeepCovers(init, key);
      KeepStep(cands, key);
      forall r ensures Seen(cands, key, r) <==> Seen(init, key, r) || (cands[|cands| - 1] == Some(r) && Key(r) == key) {
        SeenSnoc(cands, key, r);
      }
    }
  }

  /** Once any DOCX has been seen for a (student, week), the kept record is a DOCX. */
  lemma {:induction false} KeepDocx(c: Config, cands: seq<Option<DocumentRecord>>, key: (string, string))
    requires AllGood(c, cands)
    ensures (exists r :: Seen(cands, key, r) && r.suffix == ".docx") ==>
      RecordFor(Keep(cands), key).Some? && RecordFor(Keep(cands), key).value.suffix == ".docx"
    decreases |cands|
  {
    if |cands| > 0 {
      var init := cands[..|cands| - 1];
      KeepDocx(c, init, key);
      KeepStep(cands, key);
      KeepFrom(init);
      forall r ensures Seen(cands, key, r) <==> Seen(init, key, r) || (cands[|cands| - 1] == Some(r) && Key(r) == key) {
        SeenSnoc(cands, key, r);
      }
      var prev := RecordFor(Keep(init), key);
      if prev.Some? {
        var j := IndexOfKey(Keep(init), key).value;
        var m :| 0 <= m < |init| && init[m] == Some(Keep(init)[j]);
        assert cands[m] == init[m];
        assert prev.value.suffix in {".docx", ".pdf"};
      }
    }
  }

  /**
   * The kept record is one of the candidates for its (student, week), and
   * no candidate with the same suffix is newer (ties keep the earlier file).
   */
  lemma {:induction false} KeepNewest(c: Config, cands: seq<Option<DocumentRecord>>, key: (string, string))
    requires AllGood(c, cands)
    ensures RecordFor(Keep(cands), key).Some? ==>
      var kept := RecordFor(Keep(cands), key).value;
      Seen(cands, key, kept) &&
      forall r :: Seen(cands, key, r) && r.suffix == kept.suffix ==> r.mtime <= kept.mtime
    decreases |cands|
  {
    if |cands| > 0 {
      var init := cands[..|cands| - 1];
      KeepNewest(c, init, key);
      KeepCovers(init, key);
      KeepDocx(c, init, key);
      KeepStep(cands, key);
      forall r ensures Seen(cands, key, r) <==> Seen(init, key, r) || (cands[|cands| - 1] == Some(r) && Key(r) == key) {
        SeenSnoc(cands, key, r);
      }
    }
  }

  /** The documents come out ordered by numeric (student, week), each selected record exactly once. */
  lemma DiscoveredSpec(c: Config, files: seq<FileEntry>)
    ensures multiset(Discovered(c, files)) == multiset(Select(c, files))
    ensures AllNumeric(Discovered(c, files)) && SortedDocs(Discovered(c, files))
  {
    SelectInvariant(c, files);
    SortByIdsSpec(Select(c, files));
    var d := Discovered(c, files);
    forall k | 0 <= k < |d| ensures NumericIds(d[k]) {
      assert d[k] in multiset(Select(c, files));
    }
  }
}
