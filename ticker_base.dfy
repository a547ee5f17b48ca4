/**
 * The element locator shared by the scraping interfaces. A parsed page is
 * modelled as the sequence of its elements in document order, each with its tag
 * name and its text content (what `get_text()` returns).
 */
module TickerBase {
  import opened Wrappers
  import opened Text

  datatype Element = Element(tag: string, text: string)

  /** The element has the wanted tag and its text contains the fragment. */
  predicate Matches(e: Element, tag: string, fragment: string)
  {
    e.tag == tag && Contains(e.text, fragment)
  }

  /** Position of the first matching element in document order, if any. */
  function FirstMatch(document: seq<Element>, tag: string, fragment: string): (r: Option<nat>)
    ensures r.Some? ==> r.value < |document| && Matches(document[r.value], tag, fragment)
    ensures r.Some? ==> forall j :: 0 <= j < r.value ==> !Matches(document[j], tag, fragment)
    ensures r.None? <==> forall j :: 0 <= j < |document| ==> !Matches(document[j], tag, fragment)
  {
    if |document| == 0 then None
    else if Matches(document[0], tag, fragment) then Some(0)
    else match FirstMatch(document[1..], tag, fragment)
      case Some(k) => Some(k + 1)
      case None => None
  }

  /**
   * `find_parent_by_text`: walk the elements carrying `tag` in document order and
   * return the first whose text contains `text`, or `None` when there is none.
   * The document is a value, so the search cannot change it.
   */
  method FindParentByText(document: seq<Element>, tag: string, text: string) returns (r: Option<Element>)
    ensures r.None? <==> forall j :: 0 <= j < |document| ==> !Matches(document[j], tag, text)
    ensures r.Some? ==> (exists i :: 0 <= i < |document| && document[i] == r.value
                                     && Matches(document[i], tag, text)
                                     && forall j :: 0 <= j < i ==> !Matches(document[j], tag, text))
    ensures r == if FirstMatch(document, tag, text).Some?
      then Some(document[FirstMatch(document, tag, text).value]) else None
  {
    for i := 0 to |document|
      invariant forall j :: 0 <= j < i ==> !Matches(document[j], tag, text)
    {
      var element := document[i];
      if element.tag == tag && Contains(element.text, text) {
        return Some(element);
      }
    }
    return None;
  }

  /** With an empty fragment the locator finds the first element carrying the tag. */
  lemma EmptyFragmentFindsFirstTagged(document: seq<Element>, tag: string)
    ensures FirstMatch(document, tag, "").None? <==> forall j :: 0 <= j < |document| ==> document[j].tag != tag
    ensures FirstMatch(document, tag, "").Some? ==>
      document[FirstMatch(document, tag, "").value].tag == tag
      && forall j :: 0 <= j < FirstMatch(document, tag, "").value ==> document[j].tag != tag
  {
    forall j | 0 <= j < |document|
      ensures Matches(document[j], tag, "") <==> document[j].tag == tag
    {
      ContainsEmpty(document[j].text);
    }
  }

  /** Elements appended after the first match never change the answer. */
  lemma {:induction false} FirstMatchIgnoresLaterElements(document: seq<Element>, more: seq<Element>, tag: string, fragment: string)
    requires FirstMatch(document, tag, fragment).Some?
    ensures FirstMatch(document + more, tag, fragment) == FirstMatch(document, tag, fragment)
  {
    var whole := document + more;
    var v := FirstMatch(document, tag, fragment).value;
    assert whole[v] == document[v];
    forall j | 0 <= j < v
      ensures !Matches(whole[j], tag, fragment)
    {
      assert whole[j] == document[j];
    }
  }
}
