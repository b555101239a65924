/**
  Documentation links of the specification scraper (spec-scraper/src/main.rs):
  a section anchor such as `#struct-IDAttribute` becomes a link into the
  SVG 1.1 recommendation. A panic of the original is `None` here.
*/
module ScraperMain {
  import opened Wrappers
  import Text

  /** `BASE_SPEC_PATH`, the root of the SVG 1.1 recommendation. */
  const BaseSpecPath: string := "https://www.w3.org/TR/SVG11/"

  /**
    `split_docs_link`: drop the first character, split the rest on `-`, and
    link to the chapter named by the first piece at the anchor named by the
    second. Slicing an empty section, or finding no second piece, panics.
  */
  function SplitDocsLink(section: string): (r: Option<string>)
    ensures r.Some? ==> BaseSpecPath <= r.value
  {
    if |section| == 0 then None
    else
      var pieces := Text.Split(section[1..], '-');
      if |pieces| < 2 then None
      else Some(BaseSpecPath + pieces[0] + ".html#" + pieces[1])
  }

  /** The link exists exactly when the section is non-empty and a `-` follows its first character. */
  lemma SplitDocsLinkDefined(section: string)
    ensures SplitDocsLink(section).Some? <==> |section| > 0 && '-' in section[1..]
  {
    if |section| > 0 {
      Text.SplitPieces(section[1..], '-');
    }
  }

  /** A section `<c><chapter>-<anchor>` links to `<chapter>.html#<anchor>`; `#struct-IDAttribute`, say, to `struct.html#IDAttribute`. */
  lemma SplitDocsLinkChapterAnchor(c: char, chapter: string, anchor: string)
    requires '-' !in chapter && '-' !in anchor
    ensures SplitDocsLink([c] + chapter + "-" + anchor)
         == Some(BaseSpecPath + chapter + ".html#" + anchor)
  {
    var section := [c] + chapter + "-" + anchor;
    assert section[1..] == chapter + ['-'] + anchor;
    Text.SplitConcat(chapter, '-', anchor);
    Text.SplitNoDelimiter(chapter, '-');
    Text.SplitNoDelimiter(anchor, '-');
  }

  /** Whatever follows a second `-` is discarded. */
  lemma SplitDocsLinkDropsRest(c: char, chapter: string, anchor: string, rest: string)
    requires '-' !in chapter && '-' !in anchor
    ensures SplitDocsLink([c] + chapter + "-" + anchor + "-" + rest)
         == Some(BaseSpecPath + chapter + ".html#" + anchor)
  {
    var section := [c] + chapter + "-" + anchor + "-" + rest;
    assert section[1..] == chapter + ['-'] + (anchor + ['-'] + rest);
    Text.SplitConcat(chapter, '-', anchor + ['-'] + rest);
    Text.SplitConcat(anchor, '-', rest);
    Text.SplitNoDelimiter(chapter, '-');
    Text.SplitNoDelimiter(anchor, '-');
  }
}
