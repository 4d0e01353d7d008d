/** `extract_training_section`: once the target `h5` header has been found,
    the markup of the siblings that follow it, up to the next heading-like
    tag, joined by newlines and stripped. HTML parsing and the header search
    are not modelled: a parsed page is the "header found" flag and the list
    of element siblings that follow the header. */
module Extraction {
  import opened Optional
  import opened Text

  /** One element sibling after the header: its tag name and its markup. */
  datatype Sibling = Sibling(name: string, markup: string)

  /** A parsed page, as far as the scan sees it. */
  datatype Document = Document(headerFound: bool, siblings: seq<Sibling>)

  /** The scan stops at a tag whose name starts with "h": `h1`-`h6`, but also
      `hr`, `header`, `head`, `html`, ... */
  predicate IsHeading(s: Sibling) {
    s.name != "" && StartsWith(s.name, "h")
  }

  /** The siblings before the first heading-like one: a prefix of `sibs` with
      no heading in it, followed by a heading or by nothing. */
  function BeforeHeading(sibs: seq<Sibling>): (r: seq<Sibling>)
    ensures |r| <= |sibs| && r == sibs[..|r|]
    ensures forall k :: 0 <= k < |r| ==> !IsHeading(r[k])
    ensures |r| < |sibs| ==> IsHeading(sibs[|r|])
  {
    if sibs == [] || IsHeading(sibs[0]) then [] else [sibs[0]] + BeforeHeading(sibs[1..])
  }

  function Markups(sibs: seq<Sibling>): seq<string> {
    seq(|sibs|, k requires 0 <= k < |sibs| => sibs[k].markup)
  }

  /** The section text: absent when the header is missing or when the
      collected markup is only whitespace, never the empty string. */
  function Section(doc: Document): (r: Option<string>)
    ensures r != Some("")
    ensures r.None? <==> !doc.headerFound || AllSpace(Join("\n", Markups(BeforeHeading(doc.siblings))))
  {
    if !doc.headerFound then None
    else
      var joined := Join("\n", Markups(BeforeHeading(doc.siblings)));
      StripEmptyIffAllSpace(joined);
      var combined := Strip(joined);
      if combined != "" then Some(combined) else None
  }

  /** Only the siblings before the first heading-like one count: a heading
      at any position cuts off everything after it. */
  lemma {:induction false} BeforeHeadingIgnoresTail(sibs: seq<Sibling>, k: nat, tail: seq<Sibling>)
    requires k < |sibs| && IsHeading(sibs[k])
    ensures BeforeHeading(sibs[..k + 1] + tail) == BeforeHeading(sibs)
  {
    if !IsHeading(sibs[0]) {
      BeforeHeadingIgnoresTail(sibs[1..], k - 1, tail);
      assert (sibs[..k + 1] + tail)[1..] == sibs[1..][..k] + tail;
    }
  }

  /** The stopping sibling and whatever follows it never affect the section. */
  lemma SectionIgnoresTail(doc: Document, k: nat, tail: seq<Sibling>)
    requires k < |doc.siblings| && IsHeading(doc.siblings[k])
    ensures Section(Document(doc.headerFound, doc.siblings[..k + 1] + tail)) == Section(doc)
  {
    BeforeHeadingIgnoresTail(doc.siblings, k, tail);
  }

  /** A page whose header is followed by `<p>A</p>` and then an `h6`
      yields `<p>A</p>` only. */
  lemma SectionStopsAtNextHeading()
    ensures Section(Document(true, [Sibling("p", "<p>A</p>"), Sibling("h6", "<h6>B</h6>")])) == Some("<p>A</p>")
  {
    var sibs := [Sibling("p", "<p>A</p>"), Sibling("h6", "<h6>B</h6>")];
    var text := "<p>A</p>";
    assert sibs[0].name[..1][0] == 'p' && sibs[1].name[..1] == "h";
    assert BeforeHeading(sibs[1..]) == [];
    assert BeforeHeading(sibs) == [sibs[0]];
    assert Markups([sibs[0]]) == [text];
    assert Join("\n", [text]) == text;
    assert text[0] == '<' && text[|text| - 1] == '>';
    StripUnpadded(text);
  }

  /** A horizontal rule stops the scan too, since its tag name starts with "h". */
  lemma SectionStopsAtRule()
    ensures Section(Document(true, [Sibling("hr", "<hr/>"), Sibling("p", "<p>A</p>")])).None?
  {
    var sibs := [Sibling("hr", "<hr/>"), Sibling("p", "<p>A</p>")];
    assert sibs[0].name[..1] == "h";
    assert BeforeHeading(sibs) == [];
    assert Markups([]) == [];
    assert Join("\n", []) == "";
  }

  /** The scan of `extract_training_section`, collecting markup in a loop
      that stops at the first heading-like sibling. */
  method ExtractSection(doc: Document) returns (r: Option<string>)
    ensures r == Section(doc)
  {
    if !doc.headerFound {
      return None;
    }
    var sibs := doc.siblings;
    var parts: seq<string> := [];
    var i := 0;
    while i < |sibs|
      invariant 0 <= i <= |sibs|
      invariant forall k :: 0 <= k < i ==> !IsHeading(sibs[k])
      invariant parts == Markups(sibs[..i])
    {
      var sibling := sibs[i];
      if sibling.name != "" && StartsWith(sibling.name, "h") {
        break;
      }
      parts := parts + [sibling.markup];
      i := i + 1;
      assert Markups(sibs[..i]) == Markups(sibs[..i - 1]) + [sibling.markup];
    }
    var before := BeforeHeading(sibs);
    assert i == |sibs| || IsHeading(sibs[i]);
    assert |before| == i;
    assert before == sibs[..i];
    var combined := Strip(Join("\n", parts));
    r := if combined != "" then Some(combined) else None;
  }
}
