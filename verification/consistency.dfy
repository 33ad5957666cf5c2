/** `validateSameConversation`: do several raw exports describe one
    conversation? File 0 is the reference; every later file is compared with
    it in batch order, by title, then participant count, then the sorted
    participant names, and the first failing check of the first offending file
    is the answer. */
module Consistency {
  import opened Options
  import opened Js
  import opened Sorting
  import opened Classify

  /** One file that was read and parsed: `{filename, data}`. */
  datatype UploadedFile = UploadedFile(filename: string, data: Json)

  predicate IsRaw(f: UploadedFile) {
    IsInstagramMessageFile(f.data) == Normal(true)
  }

  predicate AllRaw(files: seq<UploadedFile>) {
    forall i :: 0 <= i < |files| ==> IsRaw(files[i])
  }

  /** What the validator returns. `BareTrue` is the plain boolean `true`
      returned for fewer than two files; `Valid` is `{valid: true}`; the other
      three are the `{valid: false, reason, ...}` records. */
  datatype Verdict =
    | BareTrue
    | Valid
    | TitleMismatch(expected: string, found: string, file: string)
    | CountMismatch(expectedCount: nat, foundCount: nat, file: string)
    | NameMismatch(expectedNames: seq<Json>, foundNames: seq<Json>, file: string)
  {
    predicate IsMismatch() {
      TitleMismatch? || CountMismatch? || NameMismatch?
    }
  }

  /** `data.title` of a raw export. */
  function Title(data: Json): string
    requires RawExportShape(data)
  {
    Get(data, "title").value.s
  }

  /** `data.participants` of a raw export. */
  function Participants(data: Json): (ps: seq<Json>)
    requires RawExportShape(data)
    ensures |ps| > 0 && forall i :: 0 <= i < |ps| ==> Named(ps[i])
  {
    Get(data, "participants").value.items
  }

  /** `data.participants.map(p => p.name)`. */
  function Names(data: Json): (names: seq<Json>)
    requires RawExportShape(data)
    ensures |names| == |Participants(data)|
    ensures forall i :: 0 <= i < |names| ==> Truthy(names[i])
  {
    var ps := Participants(data);
    seq(|ps|, i requires 0 <= i < |ps| => Get(ps[i], ParticipantKeys[0]).value)
  }

  /** What the validator looks at in one raw export: its file name, its
      title and its participants' names after the default sort. */
  datatype RawView = RawView(filename: string, title: string, sorted: seq<Json>)

  function View(f: UploadedFile): (w: RawView)
    requires IsRaw(f)
    ensures w.filename == f.filename && w.title == Title(f.data)
    ensures multiset(w.sorted) == multiset(Names(f.data)) && SortedByString(w.sorted)
  {
    RawView(f.filename, Title(f.data), DefaultSort(Names(f.data)))
  }

  function Views(files: seq<UploadedFile>): (ws: seq<RawView>)
    requires AllRaw(files)
    ensures |ws| == |files| && forall i :: 0 <= i < |files| ==> ws[i] == View(files[i])
  {
    seq(|files|, i requires 0 <= i < |files| => View(files[i]))
  }

  /** The name lists agree position by position under `===`. */
  predicate SameNames(a: seq<Json>, b: seq<Json>) {
    |a| == |b| && forall j :: 0 <= j < |a| ==> StrictEq(a[j], b[j])
  }

  /** `current` passes all three checks against `reference`. */
  predicate Agrees(reference: RawView, current: RawView) {
    reference.title == current.title && SameNames(reference.sorted, current.sorted)
  }

  /** View `k` is the first from position `i` on that fails a check. */
  predicate FirstOffender(views: seq<RawView>, i: nat, k: nat)
    requires 0 < |views| && k < |views|
  {
    && !Agrees(views[0], views[k])
    && forall m :: i <= m < k ==> Agrees(views[0], views[m])
  }

  /** `v` is the report for `current` failing against `reference`: the reason
      is the first check it fails, with the values that check compared and the
      offending file's name. */
  predicate Explains(v: Verdict, reference: RawView, current: RawView) {
    && v.IsMismatch()
    && v.file == current.filename
    && (reference.title != current.title ==>
          v == TitleMismatch(reference.title, current.title, current.filename))
    && (reference.title == current.title && |reference.sorted| != |current.sorted| ==>
          v == CountMismatch(|reference.sorted|, |current.sorted|, current.filename))
    && (reference.title == current.title && |reference.sorted| == |current.sorted| ==>
          v == NameMismatch(reference.sorted, current.sorted, current.filename))
  }

  /** The `for` loop from index `i` on. */
  function CheckFrom(views: seq<RawView>, i: nat): (v: Verdict)
    requires 1 <= i <= |views|
    ensures v == Valid <==> forall k :: i <= k < |views| ==> Agrees(views[0], views[k])
    ensures v != BareTrue
    decreases |views| - i
  {
    if i == |views| then Valid
    else
      var reference := views[0];
      var current := views[i];
      var expected := reference.sorted;
      var found := current.sorted;
      if reference.title != current.title then
        TitleMismatch(reference.title, current.title, current.filename)
      else if |expected| != |found| then
        CountMismatch(|expected|, |found|, current.filename)
      else if exists j :: 0 <= j < |expected| && !StrictEq(expected[j], found[j]) then
        NameMismatch(expected, found, current.filename)
      else
        CheckFrom(views, i + 1)
  }

  /** A file that passes every check hands the decision to the next one. */
  lemma CheckFromSkips(views: seq<RawView>, i: nat)
    requires 1 <= i < |views| && Agrees(views[0], views[i])
    ensures CheckFrom(views, i) == CheckFrom(views, i + 1)
  {
  }

  /** At a file that fails a check, the loop reports that file and the first
      check it fails. */
  lemma CheckFromStopsAt(views: seq<RawView>, i: nat)
    requires 1 <= i < |views| && !Agrees(views[0], views[i])
    ensures Explains(CheckFrom(views, i), views[0], views[i])
  {
    var reference, current := views[0], views[i];
    var expected := reference.sorted;
    var found := current.sorted;
    if reference.title == current.title && |expected| == |found| {
      assert !SameNames(expected, found);
      assert exists j :: 0 <= j < |expected| && !StrictEq(expected[j], found[j]);
    }
  }

  /** When the loop from `i` on reports a failure, the report is about the
      first offending file and its first failing check. */
  lemma {:induction false} CheckFromReportsFirstOffender(views: seq<RawView>, i: nat)
    requires 1 <= i <= |views|
    requires CheckFrom(views, i) != Valid
    ensures exists k :: i <= k < |views| && FirstOffender(views, i, k) &&
                        Explains(CheckFrom(views, i), views[0], views[k])
    decreases |views| - i
  {
    if Agrees(views[0], views[i]) {
      CheckFromSkips(views, i);
      CheckFromReportsFirstOffender(views, i + 1);
      var k :| i + 1 <= k < |views| && FirstOffender(views, i + 1, k) &&
               Explains(CheckFrom(views, i + 1), views[0], views[k]);
      forall m | i <= m < k
        ensures Agrees(views[0], views[m])
      {
        if m > i {
          assert i + 1 <= m < k;
        }
      }
      assert FirstOffender(views, i, k);
    } else {
      CheckFromStopsAt(views, i);
      assert FirstOffender(views, i, i);
    }
  }

  /** `validateSameConversation(files)`. */
  function ValidateSameConversation(files: seq<UploadedFile>): (v: Verdict)
    requires AllRaw(files)
    ensures v == BareTrue <==> |files| <= 1
    ensures v == Valid <==>
              |files| >= 2 && forall k :: 1 <= k < |files| ==> Agrees(View(files[0]), View(files[k]))
  {
    if |files| <= 1 then BareTrue else CheckFrom(Views(files), 1)
  }

  /** A rejected batch names the first file that disagrees with file 0, and
      the reported fields are exactly the ones that differ. */
  lemma ValidateReportsFirstOffender(files: seq<UploadedFile>)
    requires AllRaw(files)
    ensures var v := ValidateSameConversation(files);
            v.IsMismatch() ==> exists k :: 1 <= k < |files| && FirstOffender(Views(files), 1, k) &&
                                          Explains(v, View(files[0]), View(files[k]))
    ensures ValidateSameConversation(files).IsMismatch() <==>
              |files| >= 2 && exists k :: 1 <= k < |files| && !Agrees(View(files[0]), View(files[k]))
  {
    if |files| >= 2 {
      var views := Views(files);
      var v := CheckFrom(views, 1);
      assert ValidateSameConversation(files) == v;
      if v != Valid {
        CheckFromReportsFirstOffender(views, 1);
        var k :| 1 <= k < |views| && FirstOffender(views, 1, k) && Explains(v, views[0], views[k]);
        assert views[0] == View(files[0]) && views[k] == View(files[k]);
      }
    }
  }

  /** Two exports with the same title whose participant names are strings
      and reorder each other agree: sorting removes the order, and duplicates
      are kept. */
  lemma PermutedParticipantsAgree(a: UploadedFile, b: UploadedFile)
    requires IsRaw(a) && IsRaw(b)
    requires Title(a.data) == Title(b.data)
    requires AllStrings(Names(a.data))
    requires multiset(Names(a.data)) == multiset(Names(b.data))
    ensures Agrees(View(a), View(b))
  {
    DefaultSortOfPermutation(Names(a.data), Names(b.data));
    var s := View(a).sorted;
    forall j | 0 <= j < |s|
      ensures StrictEq(s[j], s[j])
    {
      assert s[j] in multiset(Names(a.data));
    }
  }

  /** The converse: agreeing exports share their title and their multiset of
      participant names, since `===` never holds between arrays or objects
      and otherwise means equality. */
  lemma AgreeingViewsArePermutations(a: UploadedFile, b: UploadedFile)
    requires IsRaw(a) && IsRaw(b)
    requires Agrees(View(a), View(b))
    ensures Title(a.data) == Title(b.data)
    ensures multiset(Names(a.data)) == multiset(Names(b.data))
  {
    var sa, sb := View(a).sorted, View(b).sorted;
    forall j | 0 <= j < |sa|
      ensures sa[j] == sb[j]
    {
      assert StrictEq(sa[j], sb[j]);
    }
    assert sa == sb;
  }

  /** For string-named participants, agreeing is exactly having the same
      title and the same names up to order, duplicates counted. */
  lemma AgreementIsPermutation(a: UploadedFile, b: UploadedFile)
    requires IsRaw(a) && IsRaw(b)
    requires AllStrings(Names(a.data))
    ensures Agrees(View(a), View(b)) <==>
              Title(a.data) == Title(b.data) && multiset(Names(a.data)) == multiset(Names(b.data))
  {
    if Agrees(View(a), View(b)) {
      AgreeingViewsArePermutations(a, b);
    }
    if Title(a.data) == Title(b.data) && multiset(Names(a.data)) == multiset(Names(b.data)) {
      PermutedParticipantsAgree(a, b);
    }
  }

  /** A batch whose files share file 0's title and reorder its string-named
      participants is one conversation. */
  lemma PermutedBatchIsValid(files: seq<UploadedFile>)
    requires AllRaw(files) && |files| >= 2
    requires AllStrings(Names(files[0].data))
    requires forall k :: 1 <= k < |files| ==>
               && Title(files[k].data) == Title(files[0].data)
               && multiset(Names(files[k].data)) == multiset(Names(files[0].data))
    ensures ValidateSameConversation(files) == Valid
  {
    forall k | 1 <= k < |files|
      ensures Agrees(View(files[0]), View(files[k]))
    {
      PermutedParticipantsAgree(files[0], files[k]);
    }
  }

}
