/**
 * The part of a pydicom `Dataset` the DICOM viewer touches: its top-level data
 * elements in ascending tag order, lookup by keyword (`ds.get(keyword)`),
 * assignment by keyword (`ds.Keyword = value`), which replaces the value of a
 * present element and otherwise inserts a new element at its place in the tag
 * order, and the text `str(tag)` of a tag.
 */
module DicomData {
  import opened Wrappers
  import opened NdArrays

  /** A DICOM tag: 16 bits of group followed by 16 bits of element number. */
  type Tag = t: nat | t < 0x1_0000_0000

  /** A data element: its tag, its dictionary name and its value as `str(value)` shows it. */
  datatype Element = Element(tag: Tag, name: string, value: string)

  const PatientNameTag: Tag := 0x0010_0010
  const PatientIdTag: Tag := 0x0010_0020
  const PatientBirthDateTag: Tag := 0x0010_0030
  const PatientSexTag: Tag := 0x0010_0040
  const StudyIdTag: Tag := 0x0020_0010

  /** The decoded file: its elements, and what pydicom derives from them. */
  datatype Dataset = Dataset(
    elements: seq<Element>,
    pixelArray: Option<NdArray>,        // `ds.pixel_array`, absent when it cannot be decoded
    numberOfFrames: Option<int>,        // `ds.NumberOfFrames`, when present
    rescale: Option<(real, real)>)      // `(RescaleSlope, RescaleIntercept)`, when both are present
  {
    predicate Wf() {
      Ascending(elements) && (pixelArray.Some? ==> pixelArray.value.Wf())
    }
  }

  /** Tags strictly ascending, as a dataset keeps them. */
  predicate Ascending(es: seq<Element>) {
    forall i, j :: 0 <= i < j < |es| ==> es[i].tag < es[j].tag
  }

  /** `ds.get(keyword)`: the value of the element with `tag`, if there is one. */
  function Get(es: seq<Element>, tag: Tag): (r: Option<string>)
    ensures r.None? <==> forall i :: 0 <= i < |es| ==> es[i].tag != tag
    ensures r.Some? ==> exists i :: 0 <= i < |es| && es[i].tag == tag && es[i].value == r.value
  {
    if es == [] then None
    else if es[0].tag == tag then Some(es[0].value)
    else
      var r := Get(es[1..], tag);
      assert r.Some? ==> exists i :: 1 <= i < |es| && es[i].tag == tag && es[i].value == r.value by {
        if r.Some? {
          var i :| 0 <= i < |es[1..]| && es[1..][i].tag == tag && es[1..][i].value == r.value;
          assert es[i + 1] == es[1..][i];
        }
      }
      r
  }

  /**
   * `ds.Keyword = value` for the keyword of `tag`: a present element keeps its
   * place and name and takes the new value; otherwise an element named `name`
   * is inserted before the first element with a larger tag.
   */
  function Put(es: seq<Element>, tag: Tag, name: string, value: string): (r: seq<Element>)
    ensures forall i :: 0 <= i < |r| ==> r[i].tag == tag || r[i] in es
  {
    if es == [] then [Element(tag, name, value)]
    else if es[0].tag == tag then [es[0].(value := value)] + es[1..]
    else if tag < es[0].tag then [Element(tag, name, value)] + es
    else [es[0]] + Put(es[1..], tag, name, value)
  }

  /** After the assignment the keyword reads back the value assigned. */
  lemma {:induction false} GetPut(es: seq<Element>, tag: Tag, name: string, value: string)
    ensures Get(Put(es, tag, name, value), tag) == Some(value)
  {
    if es != [] && es[0].tag != tag && !(tag < es[0].tag) {
      GetPut(es[1..], tag, name, value);
    }
  }

  /** Every other keyword reads as before. */
  lemma {:induction false} GetPutOther(es: seq<Element>, tag: Tag, name: string, value: string, other: Tag)
    requires other != tag
    ensures Get(Put(es, tag, name, value), other) == Get(es, other)
  {
    if es != [] && es[0].tag != tag && !(tag < es[0].tag) {
      GetPutOther(es[1..], tag, name, value, other);
    }
  }

  /** The assignment keeps the tags in ascending order. */
  lemma {:induction false} PutAscending(es: seq<Element>, tag: Tag, name: string, value: string)
    requires Ascending(es)
    ensures Ascending(Put(es, tag, name, value))
  {
    if es != [] && es[0].tag != tag && !(tag < es[0].tag) {
      PutAscending(es[1..], tag, name, value);
      var rest := Put(es[1..], tag, name, value);
      forall j | 0 <= j < |rest|
        ensures es[0].tag < rest[j].tag
      {
        if rest[j].tag != tag {
          var k :| 0 <= k < |es[1..]| && es[1..][k] == rest[j];
          assert es[k + 1] == rest[j];
        }
      }
    }
  }

  /** The elements whose tags are not in `tags`, in order. */
  function Others(es: seq<Element>, tags: set<Tag>): (r: seq<Element>)
    ensures forall i :: 0 <= i < |r| ==> r[i] in es && r[i].tag !in tags
  {
    if es == [] then []
    else if es[0].tag in tags then Others(es[1..], tags)
    else [es[0]] + Others(es[1..], tags)
  }

  /** Assigning one keyword of `tags` leaves every element outside `tags` as it was, in place. */
  lemma {:induction false} PutOthersUnchanged(es: seq<Element>, tag: Tag, name: string, value: string, tags: set<Tag>)
    requires tag in tags
    ensures Others(Put(es, tag, name, value), tags) == Others(es, tags)
  {
    if es != [] && es[0].tag != tag && !(tag < es[0].tag) {
      PutOthersUnchanged(es[1..], tag, name, value, tags);
      assert Put(es, tag, name, value)[1..] == Put(es[1..], tag, name, value);
    } else if es != [] && tag < es[0].tag {
      assert Put(es, tag, name, value)[1..] == es;
    } else if es != [] {
      assert Put(es, tag, name, value)[1..] == es[1..];
    }
  }

  // ---- Anonymisation ----

  const AnonymisedTags: set<Tag> := {PatientNameTag, PatientIdTag, StudyIdTag, PatientBirthDateTag, PatientSexTag}

  /** The five assignments of the anonymisation, in the order they are made. */
  function Anonymised(es: seq<Element>, prefix: string): seq<Element> {
    var e1 := Put(es, PatientNameTag, "Patient's Name", prefix + "_Patient");
    var e2 := Put(e1, PatientIdTag, "Patient ID", prefix + "_ID");
    var e3 := Put(e2, StudyIdTag, "Study ID", prefix + "_Study");
    var e4 := Put(e3, PatientBirthDateTag, "Patient's Birth Date", prefix + "_BirthDate");
    Put(e4, PatientSexTag, "Patient's Sex", "O")
  }

  /** The five identifying fields carry the prefixed placeholders, whatever they held. */
  lemma AnonymisedFields(es: seq<Element>, prefix: string)
    ensures var r := Anonymised(es, prefix);
      && Get(r, PatientNameTag) == Some(prefix + "_Patient")
      && Get(r, PatientIdTag) == Some(prefix + "_ID")
      && Get(r, StudyIdTag) == Some(prefix + "_Study")
      && Get(r, PatientBirthDateTag) == Some(prefix + "_BirthDate")
      && Get(r, PatientSexTag) == Some("O")
  {
    var e1 := Put(es, PatientNameTag, "Patient's Name", prefix + "_Patient");
    var e2 := Put(e1, PatientIdTag, "Patient ID", prefix + "_ID");
    var e3 := Put(e2, StudyIdTag, "Study ID", prefix + "_Study");
    var e4 := Put(e3, PatientBirthDateTag, "Patient's Birth Date", prefix + "_BirthDate");
    GetPut(es, PatientNameTag, "Patient's Name", prefix + "_Patient");
    GetPutOther(e1, PatientIdTag, "Patient ID", prefix + "_ID", PatientNameTag);
    GetPutOther(e2, StudyIdTag, "Study ID", prefix + "_Study", PatientNameTag);
    GetPutOther(e3, PatientBirthDateTag, "Patient's Birth Date", prefix + "_BirthDate", PatientNameTag);
    GetPutOther(e4, PatientSexTag, "Patient's Sex", "O", PatientNameTag);
    GetPut(e1, PatientIdTag, "Patient ID", prefix + "_ID");
    GetPutOther(e2, StudyIdTag, "Study ID", prefix + "_Study", PatientIdTag);
    GetPutOther(e3, PatientBirthDateTag, "Patient's Birth Date", prefix + "_BirthDate", PatientIdTag);
    GetPutOther(e4, PatientSexTag, "Patient's Sex", "O", PatientIdTag);
    GetPut(e2, StudyIdTag, "Study ID", prefix + "_Study");
    GetPutOther(e3, PatientBirthDateTag, "Patient's Birth Date", prefix + "_BirthDate", StudyIdTag);
    GetPutOther(e4, PatientSexTag, "Patient's Sex", "O", StudyIdTag);
    GetPut(e3, PatientBirthDateTag, "Patient's Birth Date", prefix + "_BirthDate");
    GetPutOther(e4, PatientSexTag, "Patient's Sex", "O", PatientBirthDateTag);
    GetPut(e4, PatientSexTag, "Patient's Sex", "O");
  }

  /** No element other than the five changes, moves or disappears, and the tag order is kept. */
  lemma AnonymisedKeepsOthers(es: seq<Element>, prefix: string)
    ensures Others(Anonymised(es, prefix), AnonymisedTags) == Others(es, AnonymisedTags)
    ensures Ascending(es) ==> Ascending(Anonymised(es, prefix))
  {
    var e1 := Put(es, PatientNameTag, "Patient's Name", prefix + "_Patient");
    var e2 := Put(e1, PatientIdTag, "Patient ID", prefix + "_ID");
    var e3 := Put(e2, StudyIdTag, "Study ID", prefix + "_Study");
    var e4 := Put(e3, PatientBirthDateTag, "Patient's Birth Date", prefix + "_BirthDate");
    PutOthersUnchanged(es, PatientNameTag, "Patient's Name", prefix + "_Patient", AnonymisedTags);
    PutOthersUnchanged(e1, PatientIdTag, "Patient ID", prefix + "_ID", AnonymisedTags);
    PutOthersUnchanged(e2, StudyIdTag, "Study ID", prefix + "_Study", AnonymisedTags);
    PutOthersUnchanged(e3, PatientBirthDateTag, "Patient's Birth Date", prefix + "_BirthDate", AnonymisedTags);
    PutOthersUnchanged(e4, PatientSexTag, "Patient's Sex", "O", AnonymisedTags);
    if Ascending(es) {
      PutAscending(es, PatientNameTag, "Patient's Name", prefix + "_Patient");
      PutAscending(e1, PatientIdTag, "Patient ID", prefix + "_ID");
      PutAscending(e2, StudyIdTag, "Study ID", prefix + "_Study");
      PutAscending(e3, PatientBirthDateTag, "Patient's Birth Date", prefix + "_BirthDate");
      PutAscending(e4, PatientSexTag, "Patient's Sex", "O");
    }
  }

  // ---- str(tag) ----

  /** An upper-case hexadecimal digit. */
  function HexDigit(d: nat): (c: char)
    requires d < 16
  {
    if d < 10 then '0' + d as char else 'A' + (d - 10) as char
  }

  /** The value of a hexadecimal digit, either case. */
  function HexValue(c: char): (v: Option<nat>)
    ensures v.Some? ==> v.value < 16
  {
    if '0' <= c <= '9' then Some(c as nat - '0' as nat)
    else if 'A' <= c <= 'F' then Some(c as nat - 'A' as nat + 10)
    else if 'a' <= c <= 'f' then Some(c as nat - 'a' as nat + 10)
    else None
  }

  lemma HexDigitValue(d: nat)
    requires d < 16
    ensures HexValue(HexDigit(d)) == Some(d)
  {
  }

  /** `format(n, "04X")` for a 16-bit `n`. */
  function Hex4(n: nat): (s: string)
    requires n < 0x1_0000
    ensures |s| == 4
  {
    [HexDigit(n / 0x1000), HexDigit(n / 0x100 % 16), HexDigit(n / 0x10 % 16), HexDigit(n % 16)]
  }

  function ParseHex4(s: string): (v: Option<nat>)
    requires |s| == 4
    ensures v.Some? ==> v.value < 0x1_0000
  {
    match (HexValue(s[0]), HexValue(s[1]), HexValue(s[2]), HexValue(s[3]))
    case (Some(a), Some(b), Some(c), Some(d)) => Some(a * 0x1000 + b * 0x100 + c * 0x10 + d)
    case _ => None
  }

  lemma ParseHex4RoundTrip(n: nat)
    requires n < 0x1_0000
    ensures ParseHex4(Hex4(n)) == Some(n)
  {
    var a, b, c, d := n / 0x1000, n / 0x100 % 16, n / 0x10 % 16, n % 16;
    HexDigitValue(a);
    HexDigitValue(b);
    HexDigitValue(c);
    HexDigitValue(d);
    DigitsOfHex4(n);
  }

  /** The four hexadecimal digits of a 16-bit number give it back. */
  lemma DigitsOfHex4(n: nat)
    requires n < 0x1_0000
    ensures n == (n / 0x1000) * 0x1000 + (n / 0x100 % 16) * 0x100 + (n / 0x10 % 16) * 0x10 + n % 16
  {
    var q1, q2, q3 := n / 16, n / 0x100, n / 0x1000;
    assert n == q1 * 16 + n % 16;
    assert q2 == q1 / 16 && q1 == q2 * 16 + q1 % 16 && q1 % 16 == n / 0x10 % 16;
    assert q3 == q2 / 16 && q2 == q3 * 16 + q2 % 16;
  }

  /** `str(tag)` as pydicom 2 writes it: `(GGGG, EEEE)` in upper-case hexadecimal. */
  function TagText(t: Tag): (s: string)
    ensures |s| == 12
  {
    "(" + Hex4(t / 0x1_0000) + ", " + Hex4(t % 0x1_0000) + ")"
  }

  /** Reads a tag back from its text. */
  function ParseTagText(s: string): Option<Tag> {
    if |s| != 12 || s[0] != '(' || s[5..7] != ", " || s[11] != ')' then None
    else match (ParseHex4(s[1..5]), ParseHex4(s[7..11]))
      case (Some(g), Some(e)) => Some(g * 0x1_0000 + e)
      case _ => None
  }

  /** The text of a tag determines the tag. */
  lemma TagTextRoundTrip(t: Tag)
    ensures ParseTagText(TagText(t)) == Some(t)
  {
    var s := TagText(t);
    assert s[1..5] == Hex4(t / 0x1_0000);
    assert s[7..11] == Hex4(t % 0x1_0000);
    assert s[5..7] == ", ";
    ParseHex4RoundTrip(t / 0x1_0000);
    ParseHex4RoundTrip(t % 0x1_0000);
  }

  /** Distinct tags are shown as distinct texts. */
  lemma TagTextInjective(a: Tag, b: Tag)
    requires TagText(a) == TagText(b)
    ensures a == b
  {
    TagTextRoundTrip(a);
    TagTextRoundTrip(b);
  }
}
