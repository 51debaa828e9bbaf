/**
 * The three-column metadata table of the DICOM viewer (Tag, Name, Value):
 * every element except the pixel data, the elements whose name contains a
 * search term regardless of case, and the four patient fields.
 */
module DicomTables {
  import opened Wrappers
  import opened PyStr
  import opened DicomData

  /** One table row. */
  datatype Row = Row(tag: string, name: string, value: string)

  const PixelDataName: string := "Pixel Data"
  const NotFoundRow: Row := Row("N/A", "No matching tag found", "N/A")

  /** `(str(elem.tag), elem.name, str(elem.value))`. */
  function RowOf(e: Element): Row {
    Row(TagText(e.tag), e.name, e.value)
  }

  /** Elements that the full tag table lists. */
  predicate Listed(e: Element) {
    e.name != PixelDataName
  }

  /** The rows of the elements satisfying `keep`, in the dataset's iteration order. */
  function Kept(es: seq<Element>, keep: Element -> bool): (rows: seq<Row>)
    ensures |rows| <= |es|
    ensures rows == [] <==> forall i :: 0 <= i < |es| ==> !keep(es[i])
  {
    if es == [] then []
    else
      var init := es[..|es| - 1];
      var r := Kept(init, keep) + (if keep(es[|es| - 1]) then [RowOf(es[|es| - 1])] else []);
      assert (forall i :: 0 <= i < |init| ==> !keep(init[i])) ==
        (forall i :: 0 <= i < |es| - 1 ==> !keep(es[i]));
      r
  }

  /** One more element adds its row exactly when it is kept. */
  lemma KeptPrefixStep(es: seq<Element>, keep: Element -> bool, i: nat)
    requires i < |es|
    ensures Kept(es[..i + 1], keep) == Kept(es[..i], keep) + (if keep(es[i]) then [RowOf(es[i])] else [])
  {
    assert es[..i + 1][..i] == es[..i];
  }

  /** Every kept row is the row of an element satisfying `keep`. */
  lemma {:induction false} KeptSound(es: seq<Element>, keep: Element -> bool, k: nat)
    requires k < |Kept(es, keep)|
    ensures exists i :: 0 <= i < |es| && keep(es[i]) && Kept(es, keep)[k] == RowOf(es[i])
  {
    var init, last := es[..|es| - 1], es[|es| - 1];
    var front := Kept(init, keep);
    if k < |front| {
      KeptSound(init, keep, k);
      var i :| 0 <= i < |init| && keep(init[i]) && front[k] == RowOf(init[i]);
      assert es[i] == init[i];
    } else {
      assert keep(es[|es| - 1]) && Kept(es, keep)[k] == RowOf(es[|es| - 1]);
    }
  }

  /** The row of every element satisfying `keep` is kept. */
  lemma {:induction false} KeptComplete(es: seq<Element>, keep: Element -> bool, i: nat)
    requires i < |es| && keep(es[i])
    ensures RowOf(es[i]) in Kept(es, keep)
  {
    var init := es[..|es| - 1];
    if i < |init| {
      KeptComplete(init, keep, i);
      assert init[i] == es[i];
    }
  }

  /** A row is kept exactly when it is the row of an element satisfying `keep`. */
  lemma KeptMembers(es: seq<Element>, keep: Element -> bool, row: Row)
    ensures row in Kept(es, keep) <==> exists i :: 0 <= i < |es| && keep(es[i]) && row == RowOf(es[i])
  {
    if row in Kept(es, keep) {
      var k :| 0 <= k < |Kept(es, keep)| && Kept(es, keep)[k] == row;
      KeptSound(es, keep, k);
    }
    if exists i :: 0 <= i < |es| && keep(es[i]) && row == RowOf(es[i]) {
      var i :| 0 <= i < |es| && keep(es[i]) && row == RowOf(es[i]);
      KeptComplete(es, keep, i);
    }
  }

  /** The rows of the full tag table. */
  function TagRows(es: seq<Element>): seq<Row> {
    Kept(es, Listed)
  }

  /** A row is in the tag table exactly when it is the row of an element other than the pixel data. */
  lemma TagRowsMembers(es: seq<Element>, row: Row)
    ensures row in TagRows(es) <==> exists i :: 0 <= i < |es| && es[i].name != PixelDataName && row == RowOf(es[i])
  {
    KeptMembers(es, Listed, row);
  }

  /** An element matches a lower-cased term when its lower-cased name contains the term. */
  predicate Matches(e: Element, term: string) {
    Contains(Lower(e.name), term)
  }

  /** The rows of the elements matching `term`. */
  function MatchRows(es: seq<Element>, term: string): seq<Row> {
    Kept(es, e => Matches(e, term))
  }

  /** A row is among the matches exactly when it is the row of an element whose lower-cased name contains `term`. */
  lemma MatchRowsMembers(es: seq<Element>, term: string, row: Row)
    ensures row in MatchRows(es, term) <==> exists i :: 0 <= i < |es| && Contains(Lower(es[i].name), term) && row == RowOf(es[i])
  {
    KeptMembers(es, e => Matches(e, term), row);
  }

  /**
   * The table after a search for the text `text`: the term is the text
   * stripped of white space and lower-cased; without a match the table holds
   * the single "not found" row.
   */
  function SearchRows(es: seq<Element>, text: string): (rows: seq<Row>)
    ensures var term := Lower(Strip(text));
      && ((forall i :: 0 <= i < |es| ==> !Matches(es[i], term)) ==> rows == [NotFoundRow])
      && ((exists i :: 0 <= i < |es| && Matches(es[i], term)) ==> rows == MatchRows(es, term))
  {
    var m := MatchRows(es, Lower(Strip(text)));
    if m == [] then [NotFoundRow] else m
  }

  /** A blank search lists every element, the pixel data included. */
  lemma {:induction false} BlankSearchListsAll(es: seq<Element>)
    ensures |MatchRows(es, "")| == |es|
    ensures forall i :: 0 <= i < |es| ==> RowOf(es[i]) in MatchRows(es, "")
  {
    if es != [] {
      var init := es[..|es| - 1];
      BlankSearchListsAll(init);
      ContainsEmpty(Lower(es[|es| - 1].name));
      assert MatchRows(es, "") == MatchRows(init, "") + [RowOf(es[|es| - 1])];
      forall i | 0 <= i < |es|
        ensures RowOf(es[i]) in MatchRows(es, "")
      {
        if i < |es| - 1 {
          assert init[i] == es[i];
        }
      }
    }
  }

  /** The text `.get(keyword, 'N/A')` yields. */
  function ValueOr(es: seq<Element>, tag: Tag): string {
    match Get(es, tag)
    case Some(v) => v
    case None => "N/A"
  }

  /** The patient table: name, ID, birth date and sex under their fixed tag texts. */
  function PatientRows(es: seq<Element>): (rows: seq<Row>)
    ensures |rows| == 4
    ensures forall k :: 0 <= k < 4 ==> (rows[k].value == "N/A" <==> Get(es, [PatientNameTag, PatientIdTag, PatientBirthDateTag, PatientSexTag][k]) in {None, Some("N/A")})
  {
    [ Row("(0010,0010)", "Patient's Name", ValueOr(es, PatientNameTag)),
      Row("(0010,0020)", "Patient ID", ValueOr(es, PatientIdTag)),
      Row("(0010,0030)", "Patient's Birth Date", ValueOr(es, PatientBirthDateTag)),
      Row("(0010,0040)", "Patient's Sex", ValueOr(es, PatientSexTag)) ]
  }

  /** After anonymisation the patient table shows the placeholders and no original value. */
  lemma PatientRowsAfterAnonymisation(es: seq<Element>, prefix: string)
    ensures var rows := PatientRows(Anonymised(es, prefix));
      && rows[0].value == prefix + "_Patient"
      && rows[1].value == prefix + "_ID"
      && rows[2].value == prefix + "_BirthDate"
      && rows[3].value == "O"
  {
    AnonymisedFields(es, prefix);
  }
}
