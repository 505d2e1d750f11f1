/** The result-assembly helpers of utils.py: the file-extension check, the
    prediction caption and the notes/references gathered for a prediction.
    Image drawing, pickling and the rounding of percentages are not
    modelled; `percent` stands for `round(prob * 100, 2)` rendered as text. */
module Utils {
  import opened Base
  import Text
  import opened Recognition
  import opened Store

  const AllowedExtensions: seq<string> := ["png", "jpg", "jpeg"]
  const NoNote: string := "No note"

  predicate EndsWith(s: string, suffix: string) {
    |suffix| <= |s| && s[|s| - |suffix|..] == suffix
  }

  // ------------------------------------------------------------ legal_file

  /** `name[-3:]`: the last three characters, or the whole name if shorter. */
  function LastThree(name: string): string {
    if |name| <= 3 then name else name[|name| - 3..]
  }

  /** `legal_file(name)` as written: the last three characters must be one
      of the allowed extensions. */
  function LegalFile(name: string): bool {
    LastThree(name) in AllowedExtensions
  }

  /** What the check accepts: exactly the names ending in "png" or "jpg";
      the four-letter "jpeg" can never equal a three-character slice. */
  lemma LegalFileSpec(name: string)
    ensures LegalFile(name) <==> EndsWith(name, "png") || EndsWith(name, "jpg")
  {
    if |name| > 3 {
      assert |LastThree(name)| == 3;
    }
  }

  /** The discrepancy: a ".jpeg" file is refused although "jpeg" is listed. */
  lemma LegalFileRejectsJpeg()
    ensures !LegalFile("face.jpeg")
    ensures LegalFileByExtension("face.jpeg")
  {
    assert EndsWith("face.jpeg", AllowedExtensions[2]);
  }

  /** The check as the list of extensions evidently intends: the name ends
      with one of the allowed extensions. */
  function LegalFileByExtension(name: string): (ok: bool)
    ensures ok <==> exists e :: e in AllowedExtensions && EndsWith(name, e)
  {
    EndsWith(name, "png") || EndsWith(name, "jpg") || EndsWith(name, "jpeg")
  }

  /** The intended check accepts everything the written one does, and more. */
  lemma LegalFileByExtensionWidens(name: string)
    ensures LegalFile(name) ==> LegalFileByExtension(name)
    ensures LegalFileByExtension(name) && !EndsWith(name, "jpeg") ==> LegalFile(name)
  {
    LegalFileSpec(name);
  }

  // -------------------------------------------------------- predict_caption

  /** One caption line without its newline: '{label}: {percent}%'. */
  function CaptionLine(p: Prediction, percent: real -> string): string {
    p.name + ": " + percent(p.prob) + "%"
  }

  /** `predict_caption(results)`: one newline-terminated line per result. */
  function Caption(results: seq<Prediction>, percent: real -> string): string
    decreases |results|
  {
    if |results| == 0 then ""
    else CaptionLine(results[0], percent) + "\n" + Caption(results[1..], percent)
  }

  /** Splitting on a character the first piece lacks peels that piece off. */
  lemma SplitPeel(a: string, c: char, b: string)
    requires c !in a
    ensures Text.Split(a + [c] + b, [c]) == [a] + Text.Split(b, [c])
  {
    var s := a + [c] + b;
    assert Text.OccursAt(s, [c], |a|) by {
      assert s[|a|..|a| + 1] == [c];
    }
    forall j: nat | j < |a|
      ensures !Text.OccursAt(s, [c], j)
    {
      assert s[j] == a[j];
      assert s[j..j + 1] == [s[j]];
    }
    assert Text.IndexOf(s, [c]) == Some(|a|);
    assert s[..|a|] == a;
    assert s[|a| + 1..] == b;
  }

  /** The caption's lines, one per result, in order. */
  function Lines(results: seq<Prediction>, percent: real -> string): (lines: seq<string>)
    ensures |lines| == |results|
    ensures forall i :: 0 <= i < |results| ==> lines[i] == CaptionLine(results[i], percent)
    decreases |results|
  {
    if |results| == 0 then []
    else [CaptionLine(results[0], percent)] + Lines(results[1..], percent)
  }

  /** The caption splits back into its lines, followed by the empty text
      after the last newline, when no label or percentage holds a newline. */
  lemma {:induction false} CaptionSplitsIntoLines(results: seq<Prediction>, percent: real -> string)
    requires forall i :: 0 <= i < |results| ==> '\n' !in CaptionLine(results[i], percent)
    ensures Text.Split(Caption(results, percent), "\n") == Lines(results, percent) + [""]
    decreases |results|
  {
    if |results| == 0 {
      assert Text.IndexOf("", "\n").None?;
    } else {
      var rest := results[1..];
      assert forall i :: 0 <= i < |rest| ==> rest[i] == results[i + 1];
      CaptionSplitsIntoLines(rest, percent);
      SplitPeel(CaptionLine(results[0], percent), '\n', Caption(rest, percent));
    }
  }

  // ------------------------------------------------- predict_reference_note

  /** Labels of the predictions, in order. */
  function Names(predictions: seq<Prediction>): (names: seq<string>)
    ensures |names| == |predictions|
    ensures forall i :: 0 <= i < |predictions| ==> names[i] == predictions[i].name
  {
    seq(|predictions|, i requires 0 <= i < |predictions| => predictions[i].name)
  }

  /** The `labels` list of the loop: each label the first time it is met. */
  function Distinct(s: seq<string>): seq<string>
    decreases |s|
  {
    if |s| == 0 then []
    else
      var d := Distinct(s[..|s| - 1]);
      if s[|s| - 1] in d then d else d + [s[|s| - 1]]
  }

  ghost predicate NoDuplicates(d: seq<string>) {
    forall i, j :: 0 <= i < j < |d| ==> d[i] != d[j]
  }

  /** Index of the first occurrence of `x` in `s`. */
  function First(s: seq<string>, x: string): (k: nat)
    requires x in s
    ensures k < |s| && s[k] == x
    ensures forall j :: 0 <= j < k ==> s[j] != x
  {
    if s[0] == x then 0 else 1 + First(s[1..], x)
  }

  lemma FirstInPrefix(s: seq<string>, n: nat, x: string)
    requires n <= |s| && x in s[..n]
    ensures x in s && First(s, x) == First(s[..n], x)
  {
    var k := First(s[..n], x);
    assert s[k] == x;
  }

  /** `Distinct` keeps each label once, keeps every label, and orders them
      by first occurrence. */
  lemma {:induction false} DistinctSpec(s: seq<string>)
    ensures NoDuplicates(Distinct(s))
    ensures forall x :: x in Distinct(s) <==> x in s
    ensures forall i, j :: 0 <= i < j < |Distinct(s)| ==>
              First(s, Distinct(s)[i]) < First(s, Distinct(s)[j])
    decreases |s|
  {
    if |s| > 0 {
      var n := |s| - 1;
      var p := s[..n];
      var x := s[n];
      DistinctSpec(p);
      var d := Distinct(p);
      assert s == p + [x];
      forall y | y in p
        ensures y in s && First(s, y) == First(p, y)
      {
        FirstInPrefix(s, n, y);
      }
      if x !in d {
        assert x !in p;
        assert First(s, x) == n;
        var e := d + [x];
        forall i, j | 0 <= i < j < |e|
          ensures First(s, e[i]) < First(s, e[j])
        {
          assert e[i] in p;
          if j < |d| {
            assert e[j] in p;
          }
        }
      } else {
        forall i, j | 0 <= i < j < |d|
          ensures First(s, d[i]) < First(s, d[j])
        {
          assert d[i] in p && d[j] in p;
        }
      }
    }
  }

  /** A `notes` entry: the label and its stored note or 'No note'. */
  datatype NoteEntry = NoteEntry(tag: string, note: string)

  /** A `references` entry: the label and the image of a stored face. */
  datatype Reference = Reference(tag: string, image: Photo)

  function NoteFor(db: Database, tag: string): (e: NoteEntry)
    ensures e.tag == tag
    ensures GetNote(db, tag).Some? ==> e.note == GetNote(db, tag).value
    ensures GetNote(db, tag).None? ==> e.note == NoNote
  {
    match GetNote(db, tag)
    case None => NoteEntry(tag, NoNote)
    case Some(n) => NoteEntry(tag, n)
  }

  function NotesOf(db: Database, tags: seq<string>): (notes: seq<NoteEntry>)
    ensures |notes| == |tags|
    ensures forall i :: 0 <= i < |tags| ==> notes[i] == NoteFor(db, tags[i])
  {
    seq(|tags|, i requires 0 <= i < |tags| => NoteFor(db, tags[i]))
  }

  /** One reference per label that has a stored face, in label order. */
  function RefsOf(db: Database, tags: seq<string>): (refs: seq<Reference>)
    ensures |refs| <= |tags|
    ensures forall r :: r in refs ==> r.tag in tags && FindLabel(db, r.tag)
    decreases |tags|
  {
    if |tags| == 0 then []
    else
      var rest := RefsOf(db, tags[1..]);
      match GetFace(db, tags[0])
      case None => rest
      case Some(f) => [Reference(tags[0], f.image)] + rest
  }

  /** Every label with a stored face gets its reference, and each reference
      shows the first stored face of its label. */
  lemma {:induction false} RefsOfComplete(db: Database, tags: seq<string>)
    ensures forall t :: t in tags && FindLabel(db, t) ==>
              Reference(t, GetFace(db, t).value.image) in RefsOf(db, tags)
    ensures forall r :: r in RefsOf(db, tags) ==> GetFace(db, r.tag) == Some(Face(GetFace(db, r.tag).value.encoding, r.tag, r.image))
    decreases |tags|
  {
    if |tags| > 0 {
      RefsOfComplete(db, tags[1..]);
      forall t | t in tags && FindLabel(db, t)
        ensures Reference(t, GetFace(db, t).value.image) in RefsOf(db, tags)
      {
        GetFaceSpec(db, t);
        if t != tags[0] {
          assert t in tags[1..];
        }
      }
      forall r | r in RefsOf(db, tags)
        ensures GetFace(db, r.tag) == Some(Face(GetFace(db, r.tag).value.encoding, r.tag, r.image))
      {
        GetFaceSpec(db, r.tag);
      }
    }
  }

  /** `x` is the label at some position of `tags` and `y` one at a later
      position. */
  ghost predicate InOrder(x: string, y: string, tags: seq<string>) {
    exists a, b :: 0 <= a < b < |tags| && x == tags[a] && y == tags[b]
  }

  /** Of two references, the earlier one comes from an earlier label. */
  ghost predicate FollowsLabels(refs: seq<Reference>, tags: seq<string>) {
    forall i, j :: 0 <= i < j < |refs| ==> InOrder(refs[i].tag, refs[j].tag, tags)
  }

  /** A label put in front of the labels keeps the order of what follows. */
  lemma FollowsLabelsShift(refs: seq<Reference>, t: string, tail: seq<string>)
    requires FollowsLabels(refs, tail)
    ensures FollowsLabels(refs, [t] + tail)
  {
    forall i, j | 0 <= i < j < |refs|
      ensures InOrder(refs[i].tag, refs[j].tag, [t] + tail)
    {
      assert InOrder(refs[i].tag, refs[j].tag, tail);
      var a, b :| 0 <= a < b < |tail| && refs[i].tag == tail[a] && refs[j].tag == tail[b];
      assert ([t] + tail)[a + 1] == tail[a] && ([t] + tail)[b + 1] == tail[b];
    }
  }

  /** A reference to the first label, put in front, keeps the order too. */
  lemma FollowsLabelsCons(r: Reference, refs: seq<Reference>, tail: seq<string>)
    requires FollowsLabels(refs, tail)
    requires forall k :: 0 <= k < |refs| ==> refs[k].tag in tail
    ensures FollowsLabels([r] + refs, [r.tag] + tail)
  {
    FollowsLabelsShift(refs, r.tag, tail);
    forall i, j | 0 <= i < j < |[r] + refs|
      ensures InOrder(([r] + refs)[i].tag, ([r] + refs)[j].tag, [r.tag] + tail)
    {
      assert ([r] + refs)[j] == refs[j - 1];
      if i == 0 {
        var b :| 0 <= b < |tail| && tail[b] == refs[j - 1].tag;
        assert ([r.tag] + tail)[0] == r.tag && ([r.tag] + tail)[b + 1] == tail[b];
      } else {
        assert ([r] + refs)[i] == refs[i - 1];
        assert InOrder(refs[i - 1].tag, refs[j - 1].tag, [r.tag] + tail);
      }
    }
  }

  /** References keep the order of the labels they come from. */
  lemma {:induction false} RefsOfInOrder(db: Database, tags: seq<string>)
    ensures FollowsLabels(RefsOf(db, tags), tags)
    decreases |tags|
  {
    if |tags| > 0 {
      var tail := tags[1..];
      assert tags == [tags[0]] + tail;
      RefsOfInOrder(db, tail);
      var rest := RefsOf(db, tail);
      match GetFace(db, tags[0])
      case None =>
        FollowsLabelsShift(rest, tags[0], tail);
      case Some(f) =>
        forall k | 0 <= k < |rest|
          ensures rest[k].tag in tail
        {
          assert rest[k] in rest;
        }
        FollowsLabelsCons(Reference(tags[0], f.image), rest, tail);
    }
  }

  /** `predict_reference_note(database, predictions)`: returns
      `(references, notes)`. */
  function ReferenceNote(db: Database, predictions: seq<Prediction>): (seq<Reference>, seq<NoteEntry>) {
    var tags := Distinct(Names(predictions));
    (RefsOf(db, tags), NotesOf(db, tags))
  }

  /** Notes: one per distinct label, in first-occurrence order, with the
      stored note or 'No note'. References: only labels with a stored face,
      so never more references than notes. */
  lemma ReferenceNoteSpec(db: Database, predictions: seq<Prediction>)
    ensures var (refs, notes) := ReferenceNote(db, predictions);
      && |refs| <= |notes|
      && (forall i, j :: 0 <= i < j < |notes| ==> notes[i].tag != notes[j].tag)
      && (forall i :: 0 <= i < |predictions| ==> exists k :: 0 <= k < |notes| && notes[k].tag == predictions[i].name)
      && (forall k :: 0 <= k < |notes| ==> notes[k].tag in Names(predictions))
      && (forall k :: 0 <= k < |notes| ==>
            notes[k].note == (if GetNote(db, notes[k].tag).Some? then GetNote(db, notes[k].tag).value else NoNote))
      && (forall r :: r in refs ==> FindLabel(db, r.tag))
      && (forall k :: 0 <= k < |notes| && FindLabel(db, notes[k].tag) ==>
            Reference(notes[k].tag, GetFace(db, notes[k].tag).value.image) in refs)
  {
    var names := Names(predictions);
    DistinctSpec(names);
    var tags := Distinct(names);
    RefsOfComplete(db, tags);
    forall i | 0 <= i < |predictions|
      ensures exists k :: 0 <= k < |tags| && tags[k] == predictions[i].name
    {
      assert names[i] in tags;
    }
  }

  /** References come in the order of the notes' labels, each label at most
      once. */
  lemma ReferencesFollowNotes(db: Database, predictions: seq<Prediction>)
    ensures var (refs, notes) := ReferenceNote(db, predictions);
      && |notes| == |Distinct(Names(predictions))|
      && (forall k :: 0 <= k < |notes| ==> notes[k].tag == Distinct(Names(predictions))[k])
      && FollowsLabels(refs, Distinct(Names(predictions)))
      && (forall i, j :: 0 <= i < j < |refs| ==> refs[i].tag != refs[j].tag)
  {
    var tags := Distinct(Names(predictions));
    DistinctSpec(Names(predictions));
    RefsOfInOrder(db, tags);
    var refs := RefsOf(db, tags);
    forall i, j | 0 <= i < j < |refs|
      ensures refs[i].tag != refs[j].tag
    {
      assert InOrder(refs[i].tag, refs[j].tag, tags);
      var a, b :| 0 <= a < b < |tags| && refs[i].tag == tags[a] && refs[j].tag == tags[b];
    }
  }

  /** Notes follow the first occurrence of their labels in the predictions. */
  lemma ReferenceNoteOrder(db: Database, predictions: seq<Prediction>)
    ensures var notes := ReferenceNote(db, predictions).1;
      forall i, j :: 0 <= i < j < |notes| ==>
        notes[i].tag in Names(predictions) && notes[j].tag in Names(predictions) &&
        First(Names(predictions), notes[i].tag) < First(Names(predictions), notes[j].tag)
  {
    DistinctSpec(Names(predictions));
  }
}
