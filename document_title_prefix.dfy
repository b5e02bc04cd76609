/**
 * The page-title prefix (app/assets/js/sets-document-title-prefix.js): the title
 * seen when the module loads is kept, and every update rebuilds `document.title`
 * from that original and the trimmed `data-document-title-prefix` attribute.
 */
module DocumentTitlePrefix {
  import opened JsText

  /**
   * What `el.getElementsByClassName('sets-document-title-prefix')[0]` finds:
   * no element, or an element whose attribute is absent (`getAttribute` gives
   * null) or holds a string.
   */
  datatype PrefixElement = NoPrefixElement | PrefixElement(attribute: Option<string>)

  /** The title for a prefix string: the original alone when the prefix is blank. */
  function TitleFor(prefix: string, original: string): (t: string)
    ensures Trim(prefix) == "" ==> t == original
    ensures Trim(prefix) != "" ==> t == Trim(prefix) + " " + original
  {
    if |Trim(prefix)| != 0 then Trim(prefix) + " " + original else original
  }

  /** A blank prefix (all whitespace) leaves the original title. */
  lemma BlankPrefixKeepsOriginal(prefix: string, original: string)
    requires forall k :: 0 <= k < |prefix| ==> IsJsWhitespace(prefix[k])
    ensures TitleFor(prefix, original) == original
  {
    TrimEmptyIffBlank(prefix);
  }

  /**
   * Prefixes never stack: the title always ends with the original title, and
   * whatever precedes it is one trimmed, non-blank prefix and a space.
   */
  lemma TitleEndsWithOriginal(prefix: string, original: string)
    ensures var t := TitleFor(prefix, original);
      |t| >= |original| && t[|t| - |original|..] == original
      && (t != original ==> t[..|t| - |original|] == Trim(prefix) + " ")
    ensures var p := TitleFor(prefix, original)[..|TitleFor(prefix, original)| - |original|];
      p == [] || (p[|p| - 1] == ' ' && Trim(p[..|p| - 1]) == p[..|p| - 1])
  {
    var t := TitleFor(prefix, original);
    if Trim(prefix) != "" {
      assert t[..|t| - |original|] == Trim(prefix) + " ";
      TrimIdempotent(prefix);
    }
  }

  class TitleState {
    /** `originalDocumentTitle`, captured once when the module is loaded. */
    const original: string
    /** `document.title`. */
    var title: string

    constructor (documentTitle: string)
      ensures original == documentTitle && title == documentTitle
    {
      original := documentTitle;
      title := documentTitle;
    }

    /**
     * `updateDocumentTitle(el)`. An element without the attribute makes
     * `prefix` null and `prefix.trim()` throws a TypeError: `threw` is true and
     * the title is left as it was.
     */
    method UpdateDocumentTitle(el: PrefixElement) returns (threw: bool)
      modifies this
      ensures threw <==> el.PrefixElement? && el.attribute.None?
      ensures threw ==> title == old(title)
      ensures !threw ==> title == TitleFor(if el.PrefixElement? then el.attribute.value else "", original)
    {
      var prefix: Option<string> := Some("");
      if el.PrefixElement? {
        prefix := el.attribute;
      }
      if prefix.None? {
        threw := true;
        return;
      }
      threw := false;
      if |Trim(prefix.value)| != 0 {
        title := Trim(prefix.value) + " " + original;
      } else {
        title := original;
      }
    }
  }

  /** Updating twice with the same element gives the same title as updating once. */
  method UpdateTwice(state: TitleState, el: PrefixElement)
    modifies state
    ensures state.title == if el.PrefixElement? && el.attribute.None? then old(state.title)
      else TitleFor(if el.PrefixElement? then el.attribute.value else "", state.original)
  {
    var first := state.UpdateDocumentTitle(el);
    var second := state.UpdateDocumentTitle(el);
  }
}
