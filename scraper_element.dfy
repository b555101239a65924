/**
  Element naming of the specification scraper (spec-scraper/src/element.rs):
  the Rust type name of an SVG element, link-text unquoting and the module
  an element's section belongs to. Names are taken to be ASCII, so a first
  byte is a whole character; a panic of the original is `None` here.
*/
module ScraperElement {
  import opened Wrappers
  import Text

  /** `char::to_uppercase` restricted to ASCII: `a`..`z` become `A`..`Z`, everything else stays. */
  function AsciiUpper(c: char): (r: char)
    ensures 'a' <= c <= 'z' ==> r as int == c as int - 32 && 'A' <= r <= 'Z'
    ensures !('a' <= c <= 'z') ==> r == c
  {
    if 'a' <= c <= 'z' then (c as int - 32) as char else c
  }

  /** One segment with its first character uppercased and the rest unchanged. */
  function Capitalize(piece: string): (r: string)
    requires piece != []
    ensures |r| == |piece| && r[0] == AsciiUpper(piece[0]) && r[1..] == piece[1..]
  {
    [AsciiUpper(piece[0])] + piece[1..]
  }

  /** Every segment capitalized, in order. */
  function Capitals(pieces: seq<string>): (r: seq<string>)
    requires forall k :: 0 <= k < |pieces| ==> pieces[k] != []
    ensures |r| == |pieces|
    ensures forall k :: 0 <= k < |r| ==> r[k] == Capitalize(pieces[k])
  {
    if pieces == [] then [] else [Capitalize(pieces[0])] + Capitals(pieces[1..])
  }

  /**
    The shared shape of `el_rust_name` and `bundle_struct_name`: split on
    `sep`, uppercase the first character of every segment, and join the
    segments with nothing between them. Indexing the first byte of an empty
    segment panics.
  */
  function CapitalizedJoin(s: string, sep: char): (r: Option<string>)
    ensures r.Some? <==> NoEmptyPiece(Text.Split(s, sep))
  {
    var pieces := Text.Split(s, sep);
    if NoEmptyPiece(pieces) then Some(Text.Join(Capitals(pieces), "")) else None
  }

  /** No segment is empty. */
  predicate NoEmptyPiece(pieces: seq<string>)
  {
    forall k :: 0 <= k < |pieces| ==> pieces[k] != []
  }

  /**
    An independent character-by-character reading of the same naming rule:
    separators disappear and the character at the start, or right after a
    separator, is uppercased.
  */
  function CamelCase(s: string, sep: char, upperNext: bool): string
  {
    if s == [] then ""
    else if s[0] == sep then CamelCase(s[1..], sep, true)
    else [if upperNext then AsciiUpper(s[0]) else s[0]] + CamelCase(s[1..], sep, false)
  }

  /** Inside a segment nothing is uppercased. */
  lemma {:induction false} CamelCaseRun(q: string, rest: string, sep: char)
    requires sep !in q
    ensures CamelCase(q + rest, sep, false) == q + CamelCase(rest, sep, false)
  {
    if q != [] {
      CamelCaseRun(q[1..], rest, sep);
      assert q[0] in q && (q + rest)[0] == q[0];
      assert (q + rest)[1..] == q[1..] + rest;
      assert [q[0]] + (q[1..] + CamelCase(rest, sep, false)) == q + CamelCase(rest, sep, false);
    } else {
      assert q + rest == rest;
    }
  }

  /** One segment followed, possibly, by a separator and more text. */
  lemma CamelCaseSegment(p: string, rest: string, sep: char)
    requires p != [] && sep !in p
    ensures CamelCase(p + rest, sep, true) == Capitalize(p) + CamelCase(rest, sep, false)
  {
    CamelCaseRun(p[1..], rest, sep);
    assert (p + rest)[1..] == p[1..] + rest;
  }

  /** Capitalizing and joining segments agrees with the character-by-character reading. */
  lemma {:induction false} CamelCaseJoin(pieces: seq<string>, sep: char)
    requires |pieces| >= 1
    requires forall k :: 0 <= k < |pieces| ==> pieces[k] != [] && sep !in pieces[k]
    ensures CamelCase(Text.Join(pieces, [sep]), sep, true) == Text.Join(Capitals(pieces), "")
  {
    var p := pieces[0];
    if |pieces| == 1 {
      CamelCaseSegment(p, "", sep);
      assert p + "" == p;
      assert Capitalize(p) + "" == Capitalize(p);
    } else {
      var tail := Text.Join(pieces[1..], [sep]);
      CamelCaseJoin(pieces[1..], sep);
      CamelCaseSegment(p, [sep] + tail, sep);
      assert p + [sep] + tail == p + ([sep] + tail);
      assert ([sep] + tail)[1..] == tail;
      assert Capitals(pieces)[1..] == Capitals(pieces[1..]);
      assert Text.Join(Capitals(pieces), "") == Capitalize(p) + "" + Text.Join(Capitals(pieces[1..]), "");
    }
  }

  /** Whenever the name exists it is the character-by-character reading of the input. */
  lemma CapitalizedJoinIsCamelCase(s: string, sep: char)
    requires CapitalizedJoin(s, sep).Some?
    ensures CapitalizedJoin(s, sep).value == CamelCase(s, sep, true)
  {
    Text.JoinSplit(s, sep);
    CamelCaseJoin(Text.Split(s, sep), sep);
  }

  /** Segments joined by the separator give their capitalized concatenation. */
  lemma CapitalizedJoinOfPieces(pieces: seq<string>, sep: char)
    requires |pieces| >= 1
    requires forall k :: 0 <= k < |pieces| ==> pieces[k] != [] && sep !in pieces[k]
    ensures CapitalizedJoin(Text.Join(pieces, [sep]), sep) == Some(Text.Join(Capitals(pieces), ""))
  {
    Text.SplitJoin(pieces, sep);
  }

  /** An uppercase separator never appears in the output: every separator is dropped. */
  lemma {:induction false} CamelCaseDropsSeparator(s: string, sep: char, upperNext: bool)
    requires !('A' <= sep <= 'Z')
    ensures sep !in CamelCase(s, sep, upperNext)
  {
    if s != [] {
      CamelCaseDropsSeparator(s[1..], sep, s[0] == sep);
    }
  }

  /** The output loses exactly the separators. */
  lemma {:induction false} CamelCaseLength(s: string, sep: char, upperNext: bool)
    ensures |CamelCase(s, sep, upperNext)| == |s| - multiset(s)[sep]
  {
    if s != [] {
      CamelCaseLength(s[1..], sep, s[0] == sep);
      assert s == [s[0]] + s[1..];
    }
  }

  /** `el_rust_name`: `Element` followed by the `-`-separated segments, capitalized. */
  function ElRustName(name: string): (r: Option<string>)
    ensures r.Some? <==> CapitalizedJoin(name, '-').Some?
    ensures r.Some? ==> r.value == "Element" + CapitalizedJoin(name, '-').value
  {
    match CapitalizedJoin(name, '-')
    case None => None
    case Some(capitalized) => Some("Element" + capitalized)
  }

  /**
    Whenever it exists, the Rust name is `Element` and the name with its
    dashes removed and the first letter of each segment uppercased; it holds
    no `-` and is 7 characters longer than the name without its dashes.
  */
  lemma ElRustNameSpelling(name: string)
    requires ElRustName(name).Some?
    ensures ElRustName(name).value == "Element" + CamelCase(name, '-', true)
    ensures '-' !in ElRustName(name).value
    ensures |ElRustName(name).value| == 7 + |name| - multiset(name)['-']
  {
    CapitalizedJoinIsCamelCase(name, '-');
    CamelCaseDropsSeparator(name, '-', true);
    CamelCaseLength(name, '-', true);
  }

  /** A name with an empty segment (empty, or with a leading, trailing or doubled `-`) panics. */
  lemma ElRustNameEmptySegment(a: string, b: string)
    ensures ElRustName(a + "--" + b).None?
    ensures ElRustName("").None?
    ensures ElRustName("-" + b).None?
  {
    var s := a + "--" + b;
    assert s == a + ['-'] + ("" + ['-'] + b);
    Text.SplitConcat(a, '-', "" + ['-'] + b);
    Text.SplitConcat("", '-', b);
    assert Text.Split(s, '-')[|Text.Split(a, '-')|] == "";
    assert "-" + b == "" + ['-'] + b;
    Text.SplitConcat("", '-', b);
  }

  /** Two segments: `font-face`, say, is `ElementFontFace`. */
  lemma ElRustNameTwoSegments(a: string, b: string)
    requires a != [] && b != [] && '-' !in a && '-' !in b
    ensures ElRustName(a + "-" + b) == Some("Element" + Capitalize(a) + Capitalize(b))
  {
    assert a + "-" + b == a + ['-'] + b;
    Text.SplitConcat(a, '-', b);
    Text.SplitNoDelimiter(a, '-');
    Text.SplitNoDelimiter(b, '-');
    assert Text.Split(a + "-" + b, '-') == [a, b];
    assert NoEmptyPiece([a, b]);
    assert Capitals([a, b]) == [Capitalize(a), Capitalize(b)];
    assert Text.Join([Capitalize(a), Capitalize(b)], "") == Capitalize(a) + "" + Capitalize(b);
    assert "Element" + (Capitalize(a) + "" + Capitalize(b)) == "Element" + Capitalize(a) + Capitalize(b);
  }

  /**
    `unquote`: the text without its first and last character. With fewer
    than two characters `name_len - 2` underflows, which panics.
  */
  function Unquote(s: string): (r: Option<string>)
    ensures r.Some? <==> |s| >= 2
    ensures r.Some? ==> |r.value| == |s| - 2 && [s[0]] + r.value + [s[|s| - 1]] == s
  {
    if |s| < 2 then None else Some(s[1..|s| - 1])
  }

  /** Unquoting undoes quoting with any pair of characters. */
  lemma UnquoteQuoted(open: char, inner: string, close: char)
    ensures Unquote([open] + inner + [close]) == Some(inner)
  {
    var s := [open] + inner + [close];
    assert s[1..|s| - 1] == inner;
  }

  /** `str::split_once` with a char: the text before and after the first delimiter. */
  function SplitOnce(s: string, d: char): (r: Option<(string, string)>)
    ensures r.Some? <==> d in s
    ensures r.Some? ==> r.value.0 + [d] + r.value.1 == s && d !in r.value.0
  {
    if s == [] then None
    else if s[0] == d then Some(("", s[1..]))
    else
      match SplitOnce(s[1..], d)
      case None => None
      case Some(parts) => Some(([s[0]] + parts.0, parts.1))
  }

  /**
    The module of an element: the part of its section before the first `-`
    (`get_element_info`); a section with no `-` panics.
  */
  function ElementModule(section: string): (r: Option<string>)
    ensures r.Some? <==> '-' in section
    ensures r.Some? ==> r.value + "-" <= section && '-' !in r.value
  {
    match SplitOnce(section, '-')
    case None => None
    case Some(parts) => Some(parts.0)
  }

  /** `ElInfo`: what the scraper records of one element. */
  datatype ElInfo = ElInfo(tagName: string, rustName: string, moduleName: string, section: string)

  /**
    One entry of `get_element_info`, given the link's target and text: the
    module from the section, the tag name from the unquoted link text, and
    the Rust name from the tag name. Any of the three steps may panic.
  */
  function ElementInfo(section: string, linkText: string): (r: Option<ElInfo>)
    ensures r.Some? <==> '-' in section && |linkText| >= 2 && ElRustName(linkText[1..|linkText| - 1]).Some?
    ensures r.Some? ==> r.value.section == section
    ensures r.Some? ==> [linkText[0]] + r.value.tagName + [linkText[|linkText| - 1]] == linkText
    ensures r.Some? ==> r.value.moduleName + "-" <= section && '-' !in r.value.moduleName
    ensures r.Some? ==> ElRustName(r.value.tagName) == Some(r.value.rustName)
  {
    match ElementModule(section)
    case None => None
    case Some(moduleName) =>
      match Unquote(linkText)
      case None => None
      case Some(name) =>
        match ElRustName(name)
        case None => None
        case Some(rustName) => Some(ElInfo(name, rustName, moduleName, section))
  }
}
