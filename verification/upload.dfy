/** The synchronous decision of `parseMultipleFiles`: a batch of selected
    files whose reads have already settled becomes exactly one success payload
    or one error message. The gates run in a fixed order and the first one that
    fails decides the message. */
module Upload {
  import opened Options
  import opened Text
  import opened Seqs
  import opened Js
  import opened Classify
  import opened Consistency

  /** How reading one file settled: parsed JSON, text `JSON.parse` rejected,
      or a failed read. */
  datatype ReadOutcome = Parsed(data: Json) | InvalidJson | ReadFailed

  /** A selected browser file: its name, its declared MIME type, and how
      reading it settled. */
  datatype SelectedFile = SelectedFile(name: string, mimeType: string, read: ReadOutcome)

  /** The value handed to `onSuccess`. */
  datatype Payload =
    | ProcessedStats(stats: Json)
    | RawInstagram(files: seq<UploadedFile>, fileCount: nat)

  /** Exactly one of `onSuccess(payload)` or `onError(message)`. */
  datatype Outcome = Success(payload: Payload) | Error(message: string)

  /** The settled `Promise.all` over every file's read. */
  datatype Reads = AllRead(files: seq<UploadedFile>) | ReadRejected(message: string)

  const NoFilesMessage := "Please select at least one JSON file"
  const MixedMessage := "Cannot mix raw Instagram files " + "and processed stats files. Please upload only one type."
  const MultipleProcessedMessage := "Multiple processed stats files " + "detected. Please upload only one processed stats file."
  const DifferentConversations := "Files appear to be from " + "different conversations. "
  const SameConversationAdvice := "Please ensure all uploaded files are from the same conversation."
  const NoValidFilesMessage := "No valid files found. " + "Please upload Instagram message files or a processed stats JSON file."

  function InvalidTypesMessage(names: seq<string>): string {
    "Invalid file types: " + Join(names, ", ") + ". Please upload only JSON files."
  }

  function UnrecognizedMessage(names: seq<string>): string {
    "Unrecognized file format in: " + Join(names, ", ") +
    ". Please upload Instagram message files or processed stats JSON."
  }

  /** The `catch` clause's message for an error thrown inside the `try`. */
  function CaughtMessage(message: string): string {
    "Error processing files: " + message
  }

  const TitleReason := "Chat titles don't match. "
  const CountReason := "Different number of participants. "
  const NamesReason := "Different participants. "

  /** The closing words of every reason sentence: the offending file. */
  function InFile(file: string): string {
    " in file \"" + file + "\". "
  }

  function Quoted(s: string): string {
    "\"" + s + "\""
  }

  /** The reason-specific sentence; a verdict with no `reason` (the bare
      `true`) matches no `case` of the `switch` and adds nothing. Each
      reason opens with its own words, gives the value of file 0 after
      "Expected: " and the offending file's value after "found: " (quoted
      titles, counts of people, or the sorted names joined by ", "), and
      closes by naming the file. */
  function MismatchClause(v: Verdict): (r: string)
    ensures !v.IsMismatch() <==> r == ""
    ensures v.TitleMismatch? ==>
              r == TitleReason + ("Expected: " + (Quoted(v.expected) +
                   (" but found: " + (Quoted(v.found) + InFile(v.file)))))
    ensures v.CountMismatch? ==>
              r == CountReason + ("Expected: " + (ShowNat(v.expectedCount) +
                   (" people, but found: " + (ShowNat(v.foundCount) + (" people" + InFile(v.file))))))
    ensures v.NameMismatch? ==>
              r == NamesReason + ("Expected: " + (JoinValues(v.expectedNames, ", ") +
                   (", but found: " + (JoinValues(v.foundNames, ", ") + InFile(v.file)))))
  {
    match v
    case TitleMismatch(expected, found, file) =>
      TitleReason + ("Expected: " + (Quoted(expected) + (" but found: " + (Quoted(found) + InFile(file)))))
    case CountMismatch(expected, found, file) =>
      CountReason + ("Expected: " + (ShowNat(expected) +
      (" people, but found: " + (ShowNat(found) + (" people" + InFile(file))))))
    case NameMismatch(expected, found, file) =>
      NamesReason + ("Expected: " + (JoinValues(expected, ", ") +
      (", but found: " + (JoinValues(found, ", ") + InFile(file)))))
    case _ => ""
  }

  /** Every reason sentence ends by naming the offending file. */
  lemma MismatchClauseNamesFile(v: Verdict)
    requires v.IsMismatch()
    ensures EndsWith(MismatchClause(v), InFile(v.file))
  {
    var tail := InFile(v.file);
    match v
    case TitleMismatch(expected, found, file) =>
      EndsWithNested(TitleReason, "Expected: ", Quoted(expected), " but found: ", Quoted(found), tail);
    case CountMismatch(expected, found, file) =>
      EndsWithNested(CountReason, "Expected: ", ShowNat(expected), " people, but found: ", ShowNat(found),
                     " people" + tail);
      assert EndsWith(" people" + tail, tail);
    case NameMismatch(expected, found, file) =>
      EndsWithNested(NamesReason, "Expected: ", JoinValues(expected, ", "), ", but found: ",
                     JoinValues(found, ", "), tail);
  }

  /** A sentence built right to left ends with its last piece. */
  lemma EndsWithNested(a: string, b: string, c: string, d: string, e: string, f: string)
    ensures a + (b + (c + (d + (e + f)))) == (a + b + c + d + e) + f
    ensures EndsWith(a + (b + (c + (d + (e + f)))), f)
  {
    assert ((a + b + c + d + e) + f)[|a + b + c + d + e|..] == f;
  }

  /** The count a count-mismatch sentence gives for file 0 reads back as
      the verdict's `expectedCount`, followed by the rest of the sentence. */
  lemma CountClauseReadsBack(v: Verdict)
    requires v.CountMismatch?
    ensures var r := MismatchClause(v);
            |CountReason + "Expected: "| <= |r| &&
            ReadNat(r[|CountReason + "Expected: "|..]) ==
              Some((v.expectedCount, " people, but found: " + (ShowNat(v.foundCount) + (" people" + InFile(v.file)))))
  {
    var rest := " people, but found: " + (ShowNat(v.foundCount) + (" people" + InFile(v.file)));
    assert !StartsWithDigit(rest) by {
      assert rest[0] == ' ';
    }
    ReadAfterOpening(CountReason, "Expected: ", v.expectedCount, rest);
  }

  /** A number written after two fixed pieces reads back from their end. */
  lemma ReadAfterOpening(a: string, b: string, n: nat, rest: string)
    requires !StartsWithDigit(rest)
    ensures |a + b| <= |a + (b + (ShowNat(n) + rest))|
    ensures ReadNat((a + (b + (ShowNat(n) + rest)))[|a + b|..]) == Some((n, rest))
  {
    assert (a + (b + (ShowNat(n) + rest)))[|a + b|..] == ShowNat(n) + rest;
    ReadShowNat(n, rest);
  }

  /** The consistency error: the fixed opening, the reason sentence, and the
      fixed advice. */
  function ConsistencyMessage(v: Verdict): (r: string)
    ensures DifferentConversations <= r
    ensures EndsWith(r, SameConversationAdvice)
    ensures |DifferentConversations| <= |r| - |SameConversationAdvice| &&
            r[|DifferentConversations|..|r| - |SameConversationAdvice|] == MismatchClause(v)
    ensures !v.IsMismatch() ==> r == DifferentConversations + SameConversationAdvice
  {
    DifferentConversations + MismatchClause(v) + SameConversationAdvice
  }

  /** The name ends in `.json` and the declared type is `application/json`. */
  predicate IsJsonUpload(f: SelectedFile) {
    EndsWith(f.name, ".json") && f.mimeType == "application/json"
  }

  predicate NotJsonUpload(f: SelectedFile) {
    !IsJsonUpload(f)
  }

  function SelectedNames(files: seq<SelectedFile>): (names: seq<string>)
    ensures |names| == |files| && forall i :: 0 <= i < |files| ==> names[i] == files[i].name
  {
    seq(|files|, i requires 0 <= i < |files| => files[i].name)
  }

  function FileNames(files: seq<UploadedFile>): (names: seq<string>)
    ensures |names| == |files| && forall i :: 0 <= i < |files| ==> names[i] == files[i].filename
  {
    seq(|files|, i requires 0 <= i < |files| => files[i].filename)
  }

  const InvalidJsonOpening := "Invalid JSON in file \""
  const ReadFailureOpening := "Failed to read file \""

  /** The rejection `readFile` produces for a file it could not parse: the
      kind of failure, then the file's name in quotes. */
  function ReadError(f: SelectedFile): (r: string)
    requires !f.read.Parsed?
    ensures f.read.InvalidJson? <==> InvalidJsonOpening <= r
    ensures f.read.ReadFailed? <==> ReadFailureOpening <= r
    ensures EndsWith(r, f.name + "\"")
  {
    assert InvalidJsonOpening[0] == 'I' && ReadFailureOpening[0] == 'F';
    if f.read.InvalidJson? then InvalidJsonOpening + (f.name + "\"")
    else ReadFailureOpening + (f.name + "\"")
  }

  /** `Promise.all(files.map(readFile))`: every file's `{filename, data}` in
      batch order, or the rejection of a failed read (taken in batch order). */
  function ReadAll(batch: seq<SelectedFile>): (r: Reads)
    ensures r.AllRead? <==> forall i :: 0 <= i < |batch| ==> batch[i].read.Parsed?
    ensures r.AllRead? ==> |r.files| == |batch|
    ensures r.AllRead? ==> forall i :: 0 <= i < |batch| ==>
                             r.files[i] == UploadedFile(batch[i].name, batch[i].read.data)
    ensures r.ReadRejected? ==>
              exists i :: 0 <= i < |batch| && !batch[i].read.Parsed? && r.message == ReadError(batch[i]) &&
                          forall j :: 0 <= j < i ==> batch[j].read.Parsed?
  {
    if |batch| == 0 then AllRead([])
    else if !batch[0].read.Parsed? then ReadRejected(ReadError(batch[0]))
    else
      match ReadAll(batch[1..])
      case ReadRejected(m) =>
        RejectionShifts(batch, m);
        ReadRejected(m)
      case AllRead(rest) =>
        assert forall i :: 1 <= i < |batch| ==> batch[i] == batch[1..][i - 1];
        AllRead([UploadedFile(batch[0].name, batch[0].read.data)] + rest)
  }

  /** A failed read found in the rest of the batch is, with the first file
      read, the first failed read of the whole batch. */
  lemma RejectionShifts(batch: seq<SelectedFile>, m: string)
    requires |batch| > 0 && batch[0].read.Parsed?
    requires exists i :: 0 <= i < |batch| - 1 && !batch[1..][i].read.Parsed? && m == ReadError(batch[1..][i]) &&
                         forall j :: 0 <= j < i ==> batch[1..][j].read.Parsed?
    ensures exists i :: 0 <= i < |batch| && !batch[i].read.Parsed? && m == ReadError(batch[i]) &&
                        forall j :: 0 <= j < i ==> batch[j].read.Parsed?
  {
    var i :| 0 <= i < |batch| - 1 && !batch[1..][i].read.Parsed? && m == ReadError(batch[1..][i]) &&
             forall j :: 0 <= j < i ==> batch[1..][j].read.Parsed?;
    assert batch[i + 1] == batch[1..][i];
    forall j | 0 <= j < i + 1 ensures batch[j].read.Parsed? {
      if j > 0 { assert batch[j] == batch[1..][j - 1]; }
    }
  }

  /** The exception of the first completion in `cs` that throws, if any. */
  function FirstThrow<T>(cs: seq<Completion<T>>): (r: Option<TypeError>)
    ensures r.None? <==> forall i :: 0 <= i < |cs| ==> cs[i].Normal?
    ensures r.Some? ==>
              exists i :: 0 <= i < |cs| && cs[i] == Throw(r.value) && forall j :: 0 <= j < i ==> cs[j].Normal?
  {
    if |cs| == 0 then None
    else if cs[0].Throw? then Some(cs[0].error)
    else
      var rest := FirstThrow(cs[1..]);
      assert rest.Some? ==>
               exists i :: 0 <= i < |cs| && cs[i] == Throw(rest.value) && forall j :: 0 <= j < i ==> cs[j].Normal? by {
        if rest.Some? {
          var k :| 0 <= k < |cs[1..]| && cs[1..][k] == Throw(rest.value) &&
                   forall j :: 0 <= j < k ==> cs[1..][j].Normal?;
          assert cs[k + 1] == cs[1..][k];
          assert forall j :: 1 <= j < k + 1 ==> cs[j] == cs[1..][j - 1];
        }
      }
      rest
  }

  /** `isInstagramMessageFile` applied to every file, in batch order. */
  function Classifications(files: seq<UploadedFile>): (cs: seq<Completion<bool>>)
    ensures |cs| == |files| && forall i :: 0 <= i < |files| ==> cs[i] == IsInstagramMessageFile(files[i].data)
  {
    seq(|files|, i requires 0 <= i < |files| => IsInstagramMessageFile(files[i].data))
  }

  /** The exception, if any, that the first `filter` call over
      `isInstagramMessageFile` raises: that of the first file that throws. */
  function ClassifierThrow(files: seq<UploadedFile>): (r: Option<TypeError>)
    ensures r.None? <==> forall i :: 0 <= i < |files| ==> IsInstagramMessageFile(files[i].data).Normal?
    ensures r.Some? ==>
              exists i :: 0 <= i < |files| && IsInstagramMessageFile(files[i].data) == Throw(r.value) &&
                          forall j :: 0 <= j < i ==> IsInstagramMessageFile(files[j].data).Normal?
  {
    ClassifiersReturn(files);
    FirstClassifierThrow(files);
    FirstThrow(Classifications(files))
  }

  lemma ClassifiersReturn(files: seq<UploadedFile>)
    ensures FirstThrow(Classifications(files)).None? <==>
              forall i :: 0 <= i < |files| ==> IsInstagramMessageFile(files[i].data).Normal?
  {
    var cs := Classifications(files);
    assert (forall i :: 0 <= i < |cs| ==> cs[i].Normal?) <==>
           (forall i :: 0 <= i < |files| ==> IsInstagramMessageFile(files[i].data).Normal?);
  }

  lemma FirstClassifierThrow(files: seq<UploadedFile>)
    ensures var r := FirstThrow(Classifications(files));
            r.Some? ==>
              exists i :: 0 <= i < |files| && IsInstagramMessageFile(files[i].data) == Throw(r.value) &&
                          forall j :: 0 <= j < i ==> IsInstagramMessageFile(files[j].data).Normal?
  {
    var cs := Classifications(files);
    var r := FirstThrow(cs);
    if r.Some? {
      var i :| 0 <= i < |cs| && cs[i] == Throw(r.value) && forall j :: 0 <= j < i ==> cs[j].Normal?;
      forall j | 0 <= j < i
        ensures IsInstagramMessageFile(files[j].data).Normal?
      {
        assert cs[j].Normal?;
      }
      assert IsInstagramMessageFile(files[i].data) == Throw(r.value);
    }
  }

  predicate IsProcessed(f: UploadedFile) {
    IsProcessedStatsFile(f.data)
  }

  predicate IsUnknown(f: UploadedFile) {
    !IsRaw(f) && !IsProcessed(f)
  }

  /** The decision, with one switch: `bareTrueCounts` reads the validator's
      bare `true` as success (the evident intent), while `false` keeps the
      source's `!validationResult.valid`, which is true of a bare `true`. */
  function Decide(batch: seq<SelectedFile>, bareTrueCounts: bool): Outcome {
    if |batch| == 0 then Error(NoFilesMessage)
    else
      var invalid := Filter(batch, NotJsonUpload);
      if |invalid| > 0 then Error(InvalidTypesMessage(SelectedNames(invalid)))
      else
        match ReadAll(batch)
        case ReadRejected(m) => Error(CaughtMessage(m))
        case AllRead(results) =>
          match ClassifierThrow(results)
          case Some(e) => Error(CaughtMessage(ErrorMessage(e)))
          case None => Grouped(results, bareTrueCounts)
  }

  /** The part of the `try` block after the classifier filters: gates on the
      unknown, raw and processed groups. */
  function Grouped(results: seq<UploadedFile>, bareTrueCounts: bool): Outcome {
    Gates(Filter(results, IsRaw), Filter(results, IsProcessed), Filter(results, IsUnknown), bareTrueCounts)
  }

  /** The gates on the three groups, in their order. */
  function Gates(instagram: seq<UploadedFile>, processed: seq<UploadedFile>, unknown: seq<UploadedFile>,
                 bareTrueCounts: bool): Outcome
    requires AllRaw(instagram)
  {
    if |unknown| > 0 then Error(UnrecognizedMessage(FileNames(unknown)))
    else if |instagram| > 0 && |processed| > 0 then Error(MixedMessage)
    else if |processed| > 0 then
      if |processed| > 1 then Error(MultipleProcessedMessage)
      else Success(ProcessedStats(processed[0].data))
    else if |instagram| > 0 then RawOutcome(instagram, bareTrueCounts)
    else Error(NoValidFilesMessage)
  }

  /** The raw-export branch: the consistency check decides. */
  function RawOutcome(instagram: seq<UploadedFile>, bareTrueCounts: bool): Outcome
    requires AllRaw(instagram)
  {
    var v := ValidateSameConversation(instagram);
    if !Accepted(v, bareTrueCounts) then Error(ConsistencyMessage(v))
    else Success(RawInstagram(instagram, |instagram|))
  }

  /** The gate `!validationResult.valid`, negated: a `valid: true` verdict
      passes, and the bare `true` passes only when `bareTrueCounts` holds. */
  predicate Accepted(v: Verdict, bareTrueCounts: bool) {
    v.Valid? || (bareTrueCounts && v.BareTrue?)
  }

  /** `parseMultipleFiles(files, onSuccess, onError)` as written. */
  function ParseMultipleFiles(batch: seq<SelectedFile>): Outcome {
    Decide(batch, false)
  }

  /** `parseMultipleFiles` with the validator's bare `true` accepted. */
  function ParseMultipleFilesCorrected(batch: seq<SelectedFile>): Outcome {
    Decide(batch, true)
  }


  // ---------------------------------------------------------------------
  // Properties of the decision
  // ---------------------------------------------------------------------

  /** Every file passes the type gate and was read and parsed. */
  predicate AllLoaded(batch: seq<SelectedFile>) {
    forall i :: 0 <= i < |batch| ==> IsJsonUpload(batch[i]) && batch[i].read.Parsed?
  }

  /** The `{filename, data}` records of a fully read batch. */
  function Loaded(batch: seq<SelectedFile>): (files: seq<UploadedFile>)
    requires AllLoaded(batch)
    ensures |files| == |batch|
    ensures forall i :: 0 <= i < |batch| ==> files[i] == UploadedFile(batch[i].name, batch[i].read.data)
  {
    seq(|batch|, i requires 0 <= i < |batch| => UploadedFile(batch[i].name, batch[i].read.data))
  }

  /** Classified as a raw export only. */
  predicate RawOnly(data: Json) {
    IsInstagramMessageFile(data) == Normal(true) && !IsProcessedStatsFile(data)
  }

  /** Classified as processed statistics only. */
  predicate ProcessedOnly(data: Json) {
    IsInstagramMessageFile(data) == Normal(false) && IsProcessedStatsFile(data)
  }

  /** Past the type gate and the reads, the batch's records are the loaded
      files and no classifier call threw. */
  lemma LoadedBatchReads(batch: seq<SelectedFile>)
    requires AllLoaded(batch)
    ensures Filter(batch, NotJsonUpload) == []
    ensures ReadAll(batch) == AllRead(Loaded(batch))
  {
  }


  /** Every record classified as a raw export and not as processed stats. */
  predicate RawBatch(results: seq<UploadedFile>) {
    forall i :: 0 <= i < |results| ==> IsRaw(results[i]) && !IsProcessed(results[i])
  }

  /** Every record classified as processed stats and not as a raw export. */
  predicate ProcessedBatch(results: seq<UploadedFile>) {
    forall i :: 0 <= i < |results| ==> IsProcessed(results[i]) && !IsRaw(results[i])
  }

  /** A batch is raw-only exactly when its processed and unknown groups are
      empty, and then its raw group is the whole batch. */
  lemma RawBatchGroups(results: seq<UploadedFile>)
    ensures RawBatch(results) <==> |Filter(results, IsProcessed)| == 0 && |Filter(results, IsUnknown)| == 0
    ensures RawBatch(results) ==> Filter(results, IsRaw) == results
  {
  }

  /** A batch is processed-only exactly when its raw and unknown groups are
      empty, and then its processed group is the whole batch. */
  lemma ProcessedBatchGroups(results: seq<UploadedFile>)
    ensures ProcessedBatch(results) <==> |Filter(results, IsRaw)| == 0 && |Filter(results, IsUnknown)| == 0
    ensures ProcessedBatch(results) ==> Filter(results, IsProcessed) == results
  {
  }

  /** Every loaded file with no classifier exception lands in at least one of
      the three groups, so an empty unknown group leaves a non-empty raw or
      processed group. */
  lemma {:induction false} GroupsCoverBatch(results: seq<UploadedFile>)
    requires |results| > 0
    requires |Filter(results, IsUnknown)| == 0
    ensures |Filter(results, IsRaw)| > 0 || |Filter(results, IsProcessed)| > 0
  {
    var f := results[0];
    assert !IsUnknown(f);
    if IsRaw(f) {
      assert multiset(Filter(results, IsRaw))[f] == multiset(results)[f] > 0;
    } else {
      assert multiset(Filter(results, IsProcessed))[f] == multiset(results)[f] > 0;
    }
  }

  /** A non-empty raw-only batch goes to the consistency check whole. */
  lemma RawBatchGrouped(results: seq<UploadedFile>, bareTrueCounts: bool)
    requires |results| > 0 && RawBatch(results)
    ensures Grouped(results, bareTrueCounts) == RawOutcome(results, bareTrueCounts)
  {
    RawBatchGroups(results);
  }

  /** One processed-only record is passed through. */
  lemma ProcessedFileGrouped(results: seq<UploadedFile>, bareTrueCounts: bool)
    requires |results| == 1 && ProcessedBatch(results)
    ensures Grouped(results, bareTrueCounts) == Success(ProcessedStats(results[0].data))
  {
    ProcessedBatchGroups(results);
  }

  /** The gates succeed on one processed record, or on a non-empty raw group
      alone that the consistency check accepts. */
  lemma GatesSucceed(instagram: seq<UploadedFile>, processed: seq<UploadedFile>, unknown: seq<UploadedFile>,
                     bareTrueCounts: bool)
    requires AllRaw(instagram)
    ensures Gates(instagram, processed, unknown, bareTrueCounts).Success? <==>
              |unknown| == 0 &&
              ((|instagram| == 0 && |processed| == 1) ||
               (|processed| == 0 && |instagram| > 0 && Accepted(ValidateSameConversation(instagram), bareTrueCounts)))
    ensures Gates(instagram, processed, unknown, bareTrueCounts).Success? && |processed| == 1 ==>
              Gates(instagram, processed, unknown, bareTrueCounts) == Success(ProcessedStats(processed[0].data))
    ensures Gates(instagram, processed, unknown, bareTrueCounts).Success? && |processed| == 0 ==>
              Gates(instagram, processed, unknown, bareTrueCounts) == Success(RawInstagram(instagram, |instagram|))
  {
  }

  /** The switch changes the gates' outcome only for a lone raw record. */
  lemma GatesCorrection(instagram: seq<UploadedFile>, processed: seq<UploadedFile>, unknown: seq<UploadedFile>)
    requires AllRaw(instagram)
    ensures Gates(instagram, processed, unknown, false) != Gates(instagram, processed, unknown, true) <==>
              |unknown| == 0 && |processed| == 0 && |instagram| == 1
  {
    if |unknown| == 0 && |processed| == 0 && |instagram| > 0 {
      var v := ValidateSameConversation(instagram);
      assert v.BareTrue? <==> |instagram| <= 1;
      assert RawOutcome(instagram, false) != RawOutcome(instagram, true) <==> v.BareTrue?;
    }
  }

  /** With at least one non-empty group the gates never fall through to the
      final error. */
  lemma GatesNeverFindNothing(instagram: seq<UploadedFile>, processed: seq<UploadedFile>, unknown: seq<UploadedFile>,
                              bareTrueCounts: bool)
    requires AllRaw(instagram)
    requires |instagram| > 0 || |processed| > 0 || |unknown| > 0
    ensures Gates(instagram, processed, unknown, bareTrueCounts) != Error(NoValidFilesMessage)
  {
    if |unknown| > 0 {
      assert UnrecognizedMessage(FileNames(unknown))[0] == 'U';
    } else if |instagram| > 0 && |processed| > 0 {
      assert MixedMessage[0] == 'C';
    } else if |processed| > 0 {
      assert MultipleProcessedMessage[0] == 'M';
    } else {
      RawOutcomeNeverFindsNothing(instagram, bareTrueCounts);
    }
  }

  lemma RawOutcomeNeverFindsNothing(instagram: seq<UploadedFile>, bareTrueCounts: bool)
    requires AllRaw(instagram)
    ensures RawOutcome(instagram, bareTrueCounts) != Error(NoValidFilesMessage)
  {
    var v := ValidateSameConversation(instagram);
    assert ConsistencyMessage(v)[0] == 'F';
  }

  lemma GroupedNeverFindsNothing(results: seq<UploadedFile>, bareTrueCounts: bool)
    requires |results| > 0
    ensures Grouped(results, bareTrueCounts) != Error(NoValidFilesMessage)
  {
    if |Filter(results, IsUnknown)| == 0 {
      GroupsCoverBatch(results);
    }
    GatesNeverFindNothing(Filter(results, IsRaw), Filter(results, IsProcessed), Filter(results, IsUnknown),
                          bareTrueCounts);
  }

  /** The final "No valid files found" error is never produced. */
  lemma NoValidFilesUnreachable(batch: seq<SelectedFile>, bareTrueCounts: bool)
    ensures Decide(batch, bareTrueCounts) != Error(NoValidFilesMessage)
  {
    if |batch| == 0 {
      assert NoFilesMessage[0] != NoValidFilesMessage[0];
    } else if |Filter(batch, NotJsonUpload)| > 0 {
      assert InvalidTypesMessage(SelectedNames(Filter(batch, NotJsonUpload)))[0] == 'I';
    } else if ReadAll(batch).ReadRejected? {
      assert CaughtMessage(ReadAll(batch).message)[0] == 'E';
    } else if ClassifierThrow(ReadAll(batch).files).Some? {
      assert CaughtMessage(ErrorMessage(ClassifierThrow(ReadAll(batch).files).value))[0] == 'E';
    } else {
      GroupedNeverFindsNothing(ReadAll(batch).files, bareTrueCounts);
    }
  }

  /** The grouping stage accepts exactly two kinds of batch: one processed
      statistics file, passed through, or a batch of raw exports only that
      the consistency check accepts, passed on whole with its count. */
  lemma {:induction false} GroupedOutcomes(results: seq<UploadedFile>, bareTrueCounts: bool)
    requires |results| > 0
    ensures Grouped(results, bareTrueCounts) == Success(ProcessedStats(results[0].data)) <==>
              |results| == 1 && IsProcessed(results[0]) && !IsRaw(results[0])
    ensures Grouped(results, bareTrueCounts) == Success(RawInstagram(results, |results|)) <==>
              RawBatch(results) && Accepted(ValidateSameConversation(results), bareTrueCounts)
    ensures Grouped(results, bareTrueCounts).Success? ==>
              Grouped(results, bareTrueCounts) == Success(ProcessedStats(results[0].data)) ||
              Grouped(results, bareTrueCounts) == Success(RawInstagram(results, |results|))
  {
    var instagram := Filter(results, IsRaw);
    var processed := Filter(results, IsProcessed);
    var unknown := Filter(results, IsUnknown);
    assert Grouped(results, bareTrueCounts) == Gates(instagram, processed, unknown, bareTrueCounts);
    GatesSucceed(instagram, processed, unknown, bareTrueCounts);
    RawBatchGroups(results);
    ProcessedBatchGroups(results);
  }

  /** The bare-`true` switch matters only in the raw-export branch, and there
      only when the batch is a single file. */
  lemma {:induction false} GroupedCorrection(results: seq<UploadedFile>)
    requires |results| > 0
    ensures Grouped(results, false) != Grouped(results, true) <==> RawBatch(results) && |results| == 1
  {
    var instagram := Filter(results, IsRaw);
    var processed := Filter(results, IsProcessed);
    var unknown := Filter(results, IsUnknown);
    assert Grouped(results, false) == Gates(instagram, processed, unknown, false);
    assert Grouped(results, true) == Gates(instagram, processed, unknown, true);
    GatesCorrection(instagram, processed, unknown);
    RawBatchGroups(results);
  }

  /** The grouping gates in their order: the unrecognised files, a mix of
      kinds, then several statistics files. */
  lemma {:induction false} GroupedGates(results: seq<UploadedFile>, bareTrueCounts: bool)
    ensures (exists i :: 0 <= i < |results| && IsUnknown(results[i])) ==>
              Grouped(results, bareTrueCounts) ==
              Error(UnrecognizedMessage(FileNames(Filter(results, IsUnknown))))
    ensures (forall i :: 0 <= i < |results| ==> !IsUnknown(results[i])) &&
            (exists i :: 0 <= i < |results| && IsRaw(results[i])) &&
            (exists j :: 0 <= j < |results| && IsProcessed(results[j])) ==>
              Grouped(results, bareTrueCounts) == Error(MixedMessage)
    ensures |results| > 1 && ProcessedBatch(results) ==>
              Grouped(results, bareTrueCounts) == Error(MultipleProcessedMessage)
  {
    var instagram := Filter(results, IsRaw);
    var processed := Filter(results, IsProcessed);
    var unknown := Filter(results, IsUnknown);
    assert Grouped(results, bareTrueCounts) == Gates(instagram, processed, unknown, bareTrueCounts);
    ProcessedBatchGroups(results);
  }

  /** A classifier call that returned answered `false` iff it did not answer `true`. */
  lemma NormalBool(c: Completion<bool>)
    requires c.Normal?
    ensures c == Normal(false) <==> c != Normal(true)
  {
    if c.value { assert c == Normal(true); } else { assert c == Normal(false); }
  }

  /** Every file passes the type gate, is read and parsed, and goes through
      the classifier without an exception. */
  predicate Admissible(batch: seq<SelectedFile>) {
    |batch| > 0 && AllLoaded(batch) &&
    forall i :: 0 <= i < |batch| ==> IsInstagramMessageFile(batch[i].read.data).Normal?
  }

  /** The processed-only test on the selected file and on its loaded record agree. */
  lemma ProcessedOnlyLoaded(batch: seq<SelectedFile>)
    requires Admissible(batch)
    ensures |batch| == 1 && ProcessedOnly(batch[0].read.data) <==>
            |Loaded(batch)| == 1 && IsProcessed(Loaded(batch)[0]) && !IsRaw(Loaded(batch)[0])
  {
    assert Loaded(batch)[0].data == batch[0].read.data;
    NormalBool(IsInstagramMessageFile(batch[0].read.data));
  }

  /** The raw-only test on the selected files and on their loaded records agree. */
  lemma RawOnlyLoaded(batch: seq<SelectedFile>)
    requires Admissible(batch)
    ensures RawBatch(Loaded(batch)) <==> forall i :: 0 <= i < |batch| ==> RawOnly(batch[i].read.data)
  {
  }

  /** Only an admissible batch reaches the grouping stage, and it reaches it
      with its loaded records. */
  lemma {:induction false} DecideReachesGrouping(batch: seq<SelectedFile>, bareTrueCounts: bool)
    ensures Decide(batch, bareTrueCounts).Success? ==> Admissible(batch)
    ensures Admissible(batch) ==> Decide(batch, bareTrueCounts) == Grouped(Loaded(batch), bareTrueCounts)
  {
    if |batch| == 0 {
    } else if |Filter(batch, NotJsonUpload)| > 0 {
      var i :| 0 <= i < |batch| && NotJsonUpload(batch[i]);
      assert !AllLoaded(batch);
    } else if ReadAll(batch).ReadRejected? {
      var i :| 0 <= i < |batch| && !batch[i].read.Parsed?;
      assert !AllLoaded(batch);
    } else {
      assert AllLoaded(batch);
      LoadedBatchReads(batch);
      var results := Loaded(batch);
      if ClassifierThrow(results).Some? {
        var i :| 0 <= i < |results| && IsInstagramMessageFile(results[i].data).Throw?;
        assert !IsInstagramMessageFile(batch[i].read.data).Normal?;
      }
    }
  }

  /** A batch of one selected file reaches the grouping stage as its record. */
  lemma OneFileReachesGrouping(f: SelectedFile, bareTrueCounts: bool)
    requires IsJsonUpload(f) && f.read.Parsed? && IsInstagramMessageFile(f.read.data).Normal?
    ensures Decide([f], bareTrueCounts) == Grouped([UploadedFile(f.name, f.read.data)], bareTrueCounts)
  {
    SingleAdmissible(f);
    DecideReachesGrouping([f], bareTrueCounts);
    SingleLoaded(f);
  }

  lemma SingleAdmissible(f: SelectedFile)
    requires IsJsonUpload(f) && f.read.Parsed? && IsInstagramMessageFile(f.read.data).Normal?
    ensures Admissible([f])
  {
  }

  lemma SingleLoaded(f: SelectedFile)
    requires IsJsonUpload(f) && f.read.Parsed?
    ensures AllLoaded([f]) && Loaded([f]) == [UploadedFile(f.name, f.read.data)]
  {
  }

  /** A single raw export, which the validator answers with a bare `true`,
      ends in the consistency error with no reason sentence. */
  lemma SingleRawFileRejected(f: SelectedFile)
    requires IsJsonUpload(f) && f.read.Parsed? && RawOnly(f.read.data)
    ensures ParseMultipleFiles([f]) == Error(DifferentConversations + SameConversationAdvice)
  {
    var file := UploadedFile(f.name, f.read.data);
    OneFileReachesGrouping(f, false);
    assert RawBatch([file]) by { assert [file][0] == file; }
    RawBatchGrouped([file], false);
    LoneRawOutcome(file, false);
  }

  /** A lone raw record gets the validator's bare `true`. */
  lemma LoneRawOutcome(file: UploadedFile, bareTrueCounts: bool)
    requires IsRaw(file)
    ensures !bareTrueCounts ==> RawOutcome([file], bareTrueCounts) == Error(DifferentConversations + SameConversationAdvice)
    ensures bareTrueCounts ==> RawOutcome([file], bareTrueCounts) == Success(RawInstagram([file], 1))
  {
    assert AllRaw([file]) by { assert [file][0] == file; }
    assert ValidateSameConversation([file]) == BareTrue;
    BareTrueMessage();
  }

  /** The bare `true` adds no reason sentence to the consistency error. */
  lemma BareTrueMessage()
    ensures ConsistencyMessage(BareTrue) == DifferentConversations + SameConversationAdvice
  {
    assert MismatchClause(BareTrue) == "";
  }

  /** With the bare `true` read as success, the same single file is accepted. */
  lemma CorrectedAcceptsSingleRawFile(f: SelectedFile)
    requires IsJsonUpload(f) && f.read.Parsed? && RawOnly(f.read.data)
    ensures ParseMultipleFilesCorrected([f]) ==
              Success(RawInstagram([UploadedFile(f.name, f.read.data)], 1))
  {
    var file := UploadedFile(f.name, f.read.data);
    OneFileReachesGrouping(f, true);
    assert RawBatch([file]) by { assert [file][0] == file; }
    RawBatchGrouped([file], true);
    LoneRawOutcome(file, true);
  }

  /** A file that satisfies both predicates lands in both groups, so even on
      its own it is rejected as a mix of types. */
  lemma OverlappingFileRejectedAsMixed(f: SelectedFile)
    requires IsJsonUpload(f) && f.read.Parsed?
    requires IsInstagramMessageFile(f.read.data) == Normal(true) && IsProcessedStatsFile(f.read.data)
    ensures ParseMultipleFiles([f]) == Error(MixedMessage)
  {
    var file := UploadedFile(f.name, f.read.data);
    OneFileReachesGrouping(f, false);
    LoneOverlapGrouped(file);
  }

  /** A lone record in both groups meets the mixed-kinds gate. */
  lemma LoneOverlapGrouped(file: UploadedFile)
    requires IsRaw(file) && IsProcessed(file)
    ensures Grouped([file], false) == Error(MixedMessage)
  {
    var results := [file];
    assert results[0] == file;
    assert Filter(results, IsRaw) == results;
    assert Filter(results, IsProcessed) == results;
    assert |Filter(results, IsUnknown)| == 0;
  }

  /** One processed statistics file is passed through unchanged, without the
      consistency check. */
  lemma SingleProcessedFileAccepted(f: SelectedFile)
    requires IsJsonUpload(f) && f.read.Parsed? && ProcessedOnly(f.read.data)
    ensures ParseMultipleFiles([f]) == Success(ProcessedStats(f.read.data))
  {
    var file := UploadedFile(f.name, f.read.data);
    OneFileReachesGrouping(f, false);
    ProcessedFileGrouped([file], false);
  }

  /** A batch is accepted exactly when it is admissible and is either one
      processed statistics file or raw exports only that the consistency
      check accepts; the payload is that file's data or the whole batch. */
  lemma {:induction false} AcceptedBatches(batch: seq<SelectedFile>, bareTrueCounts: bool)
    ensures Decide(batch, bareTrueCounts).Success? <==>
              Admissible(batch) &&
              ((|batch| == 1 && ProcessedOnly(batch[0].read.data)) ||
               ((forall i :: 0 <= i < |batch| ==> RawOnly(batch[i].read.data)) &&
                Accepted(ValidateSameConversation(Loaded(batch)), bareTrueCounts)))
    ensures Decide(batch, bareTrueCounts).Success? ==>
              Decide(batch, bareTrueCounts).payload == ProcessedStats(batch[0].read.data) ||
              Decide(batch, bareTrueCounts).payload == RawInstagram(Loaded(batch), |batch|)
  {
    DecideReachesGrouping(batch, bareTrueCounts);
    if Admissible(batch) {
      var results := Loaded(batch);
      GroupedOutcomes(results, bareTrueCounts);
      ProcessedOnlyLoaded(batch);
      RawOnlyLoaded(batch);
    }
  }

  /** Before the grouping stage the switch plays no part. */
  lemma {:induction false} DecideIgnoresSwitchBeforeGrouping(batch: seq<SelectedFile>)
    requires !Admissible(batch)
    ensures Decide(batch, false) == Decide(batch, true)
  {
    DecideReachesGrouping(batch, false);
    DecideReachesGrouping(batch, true);
    if |batch| > 0 && |Filter(batch, NotJsonUpload)| == 0 && ReadAll(batch).AllRead? {
      LoadedBatchReads(batch);
      var results := Loaded(batch);
      assert ClassifierThrow(results).Some? by {
        var i :| 0 <= i < |batch| && !IsInstagramMessageFile(batch[i].read.data).Normal?;
        assert results[i].data == batch[i].read.data;
      }
    }
  }

  /** The corrected decision differs from the one as written on exactly the
      batches of one raw export. */
  lemma {:induction false} CorrectionOnlyAffectsSingleRawFile(batch: seq<SelectedFile>)
    ensures ParseMultipleFiles(batch) != ParseMultipleFilesCorrected(batch) <==>
              Admissible(batch) && |batch| == 1 && RawOnly(batch[0].read.data)
  {
    if Admissible(batch) {
      DecideReachesGrouping(batch, false);
      DecideReachesGrouping(batch, true);
      GroupedCorrection(Loaded(batch));
      RawOnlyLoaded(batch);
    } else {
      DecideIgnoresSwitchBeforeGrouping(batch);
    }
  }

  /** The first two gates: an empty batch, then the files failing the type
      check, all of them, in batch order. */
  lemma {:induction false} TypeGate(batch: seq<SelectedFile>, bareTrueCounts: bool)
    ensures |batch| == 0 ==> Decide(batch, bareTrueCounts) == Error(NoFilesMessage)
    ensures |batch| > 0 && (exists i :: 0 <= i < |batch| && NotJsonUpload(batch[i])) ==>
              Decide(batch, bareTrueCounts) ==
              Error(InvalidTypesMessage(SelectedNames(Filter(batch, NotJsonUpload))))
  {
    if |batch| > 0 && exists i :: 0 <= i < |batch| && NotJsonUpload(batch[i]) {
      assert |Filter(batch, NotJsonUpload)| > 0;
    }
  }

  /** A file that fails to load, after earlier ones that loaded, ends the
      upload with its own read error inside the caught-error message. */
  lemma {:induction false} ReadFailureReported(batch: seq<SelectedFile>, k: nat, bareTrueCounts: bool)
    requires forall i :: 0 <= i < |batch| ==> IsJsonUpload(batch[i])
    requires k < |batch| && !batch[k].read.Parsed?
    requires forall j :: 0 <= j < k ==> batch[j].read.Parsed?
    ensures Decide(batch, bareTrueCounts) == Error(CaughtMessage(ReadError(batch[k])))
  {
    assert Filter(batch, NotJsonUpload) == [];
    var r := ReadAll(batch);
    assert r.ReadRejected?;
    var i :| 0 <= i < |batch| && !batch[i].read.Parsed? && r.message == ReadError(batch[i]) &&
             forall j :: 0 <= j < i ==> batch[j].read.Parsed?;
    assert i == k;
  }

  /** Once every file is loaded, the first file whose raw-export test throws
      ends the upload with that exception's message. */
  lemma {:induction false} ClassifierThrowReported(batch: seq<SelectedFile>, k: nat, bareTrueCounts: bool)
    requires AllLoaded(batch)
    requires k < |batch| && IsInstagramMessageFile(batch[k].read.data).Throw?
    requires forall j :: 0 <= j < k ==> IsInstagramMessageFile(batch[j].read.data).Normal?
    ensures Decide(batch, bareTrueCounts) ==
              Error(CaughtMessage(ErrorMessage(IsInstagramMessageFile(batch[k].read.data).error)))
  {
    LoadedBatchReads(batch);
    var results := Loaded(batch);
    FirstThrowerIsReported(results, k);
  }

  /** `ClassifierThrow` picks the first thrower. */
  lemma FirstThrowerIsReported(results: seq<UploadedFile>, k: nat)
    requires k < |results| && IsInstagramMessageFile(results[k].data).Throw?
    requires forall j :: 0 <= j < k ==> IsInstagramMessageFile(results[j].data).Normal?
    ensures ClassifierThrow(results) == Some(IsInstagramMessageFile(results[k].data).error)
  {
    var r := ClassifierThrow(results);
    var i :| 0 <= i < |results| && IsInstagramMessageFile(results[i].data) == Throw(r.value) &&
             forall j :: 0 <= j < i ==> IsInstagramMessageFile(results[j].data).Normal?;
    assert i == k;
  }

  /** A batch of raw exports only, which the consistency check finds to span
      several conversations, ends in the consistency error carrying the
      check's reason, whichever way the bare `true` is read. */
  lemma RawBatchRejected(batch: seq<SelectedFile>, bareTrueCounts: bool)
    requires Admissible(batch) && RawBatch(Loaded(batch))
    requires ValidateSameConversation(Loaded(batch)).IsMismatch()
    ensures Decide(batch, bareTrueCounts) == Error(ConsistencyMessage(ValidateSameConversation(Loaded(batch))))
  {
    DecideReachesGrouping(batch, bareTrueCounts);
    RawBatchGrouped(Loaded(batch), bareTrueCounts);
  }
}
