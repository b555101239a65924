/**
  Common value types (src/common.rs): the delimited value list, language
  tags, and the `data-*` and non-standard attributes. The attribute bundles
  declared in the same file (`CoreAttributes`, `ConditionalProcessing`) are
  modelled as schema instances in module PathElement.
*/
module Common {
  import opened Wrappers
  import Text
  import Io

  // ---------------------------------------------------------------- language tags

  /** The error type of `LanguageTag::new`; no constructor of the tag ever produces it. */
  datatype InvalidLanguageTag = InvalidLanguageTag

  /** A language tag; its text is kept as given and never validated. */
  datatype LanguageTag = LanguageTag(text: string)

  /** `LanguageTag::new`: never fails, keeps the text. */
  function NewLanguageTag(value: string): (r: Result<LanguageTag, InvalidLanguageTag>)
    ensures r.Ok? && LanguageTagToString(r.value) == value
  {
    Ok(LanguageTag(value))
  }

  /** `LanguageTag::from_str`: never fails, keeps the text. */
  function LanguageTagFromStr(s: string): (r: Result<LanguageTag, InvalidLanguageTag>)
    ensures r.Ok? && LanguageTagToString(r.value) == s
  {
    Ok(LanguageTag(s))
  }

  /** `ToString for LanguageTag`. */
  function LanguageTagToString(t: LanguageTag): string
  {
    t.text
  }

  // ---------------------------------------------------------------- xml:space

  /** `XmlSpace`; `SpaceDefault` is the derived `Default::default()`. */
  datatype XmlSpace = SpaceDefault | SpacePreserve

  // ---------------------------------------------------------------- attribute values

  /** The `AttributeValue` implementations a delimited list can hold. */
  datatype AttrValue = CowStr(text: string) | OwnedString(text: string) | Tag(tag: LanguageTag)

  /** The value type `V` of a list, which fixes how stored text is read back. */
  datatype ValueKind = CowKind | StringKind | LanguageTagKind

  function KindOf(v: AttrValue): ValueKind
  {
    match v
    case CowStr(_) => CowKind
    case OwnedString(_) => StringKind
    case Tag(_) => LanguageTagKind
  }

  /** `AttributeValue::as_str`: only `Cow<str>` lends its text; `String` and `LanguageTag` return `None`. */
  function AsStr(v: AttrValue): (r: Option<string>)
    ensures r.Some? <==> v.CowStr?
    ensures v.CowStr? ==> r.value == v.text
  {
    match v
    case CowStr(s) => Some(s)
    case OwnedString(_) => None
    case Tag(_) => None
  }

  /** `ToString` of a value. */
  function ValueToString(v: AttrValue): string
  {
    match v
    case CowStr(s) => s
    case OwnedString(s) => s
    case Tag(t) => LanguageTagToString(t)
  }

  /** `AttributeValue::write_to`: every one of these writes its text as it is. */
  function WriteValue(v: AttrValue, settings: Io.WriteSettings): (r: string)
    ensures r == Serialized(v)
    ensures AsStr(v).Some? ==> r == AsStr(v).value
  {
    ValueToString(v)
  }

  /** The text the list operations search for and store: `as_str()`, or else `to_string()`. */
  function Serialized(v: AttrValue): (r: string)
    ensures r == ValueToString(v)
  {
    match AsStr(v)
    case Some(s) => s
    case None => ValueToString(v)
  }

  /** `FromStringUnsafe::from`: read stored text back as a value of the list's type. */
  function FromStringUnsafe(kind: ValueKind, s: string): (r: AttrValue)
    ensures KindOf(r) == kind && Serialized(r) == s
  {
    match kind
    case CowKind => CowStr(s)
    case StringKind => OwnedString(s)
    case LanguageTagKind => Tag(LanguageTag(s))
  }

  /** Reading back the text of a value gives the same value. */
  lemma {:induction false} FromStringUnsafeRoundTrip(v: AttrValue)
    ensures FromStringUnsafe(KindOf(v), Serialized(v)) == v
  {
    match v
    case CowStr(_) =>
    case OwnedString(_) =>
    case Tag(t) => assert t == LanguageTag(t.text);
  }

  // ---------------------------------------------------------------- delimited value list: storage transitions

  /**
    The storage after `push`/`push_str` of `text`: the text alone on an empty
    list, otherwise one delimiter and the text appended. A delimiter-free
    text becomes exactly one new last entry.
  */
  function Pushed(storage: string, d: char, text: string): (r: string)
    ensures storage == "" ==> r == text
    ensures storage != "" ==> |r| == |storage| + 1 + |text| && r[..|storage|] == storage
    ensures storage != "" ==> r == storage + [d] + text
    ensures d !in text ==>
      Text.Split(r, d) == if storage == "" then [text] else Text.Split(storage, d) + [text]
  {
    var r := if storage == "" then text else storage + [d] + text;
    assert d !in text ==>
      Text.Split(r, d) == if storage == "" then [text] else Text.Split(storage, d) + [text]
    by {
      if d !in text {
        Text.SplitNoDelimiter(text, d);
        if storage != "" {
          Text.SplitConcat(storage, d, text);
        }
      }
    }
    assert storage != "" ==> r[..|storage|] == storage;
    r
  }

  /**
    The storage after pushing `texts` one by one onto `storage`: what was
    stored stays in place, and nothing pushed leaves it unchanged.
  */
  function PushAll(storage: string, d: char, texts: seq<string>): (r: string)
    ensures |r| >= |storage| && r[..|storage|] == storage
    ensures texts == [] ==> r == storage
  {
    if texts == [] then storage
    else Pushed(PushAll(storage, d, texts[..|texts| - 1]), d, texts[|texts| - 1])
  }

  /**
    Pushing non-empty, delimiter-free texts onto a new list and iterating
    gives back exactly those texts, in order.
  */
  lemma {:induction false} PushAllEntries(d: char, texts: seq<string>)
    requires |texts| >= 1
    requires forall k :: 0 <= k < |texts| ==> texts[k] != "" && d !in texts[k]
    ensures PushAll("", d, texts) != ""
    ensures Text.Split(PushAll("", d, texts), d) == texts
  {
    var front := texts[..|texts| - 1];
    if |front| == 0 {
      assert texts == [texts[0]];
    } else {
      PushAllEntries(d, front);
      assert texts == front + [texts[|texts| - 1]];
    }
  }

  /** A new list iterates as one empty entry, as Rust's `split` does on the empty string. */
  lemma EmptyListIteratesOneEmptyEntry(d: char)
    ensures Text.Split("", d) == [""]
  {
  }

  /**
    The result of `pop`: with no delimiter stored (an empty list or a single
    entry) nothing is returned and the storage stays; otherwise the text after
    the last delimiter is returned and the storage is cut to the text before
    it, so exactly the last entry leaves.
  */
  function Popped(storage: string, d: char): (r: (string, Option<string>))
    ensures d !in storage ==> r == (storage, None)
    ensures d in storage ==> r.1.Some? && r.0 + [d] + r.1.value == storage && d !in r.1.value
    ensures d in storage ==> Text.Split(storage, d) == Text.Split(r.0, d) + [r.1.value]
  {
    match Text.RFind(storage, d)
    case None => (storage, None)
    case Some(k) =>
      var head, tail := storage[..k], storage[k + 1..];
      assert head + [d] + tail == storage;
      Text.SplitNoDelimiter(tail, d);
      Text.SplitConcat(head, d, tail);
      (head, Some(tail))
  }

  /**
    The result of `remove` of `text`: `false` and the storage unchanged when
    `text` is not a substring; otherwise the first occurrence is cut out
    together with the character after it (unless it ends the storage) and the
    character before it (unless it starts the storage).
  */
  function Removed(storage: string, text: string): (r: (string, bool))
    ensures r.1 <==> Text.Contains(storage, text)
    ensures !r.1 ==> r.0 == storage
    ensures r.1 ==>
      var k := Text.Find(storage, text).value;
      var e := k + |text|;
      r.0 == if k == 0 && e == |storage| then ""
             else if k == 0 then storage[e + 1..]
             else if e == |storage| then storage[..k - 1]
             else storage[..k - 1] + storage[e + 1..]
  {
    match Text.Find(storage, text)
    case None => (storage, false)
    case Some(start) =>
      var end := start + |text|;
      var end' := if end != |storage| then end + 1 else end;
      var start' := if start != 0 then start - 1 else start;
      (storage[..start'] + storage[end'..], true)
  }

  /** Where entry `k` of a joined list starts. */
  function EntryOffset(entries: seq<string>, d: char, k: nat): nat
    requires k <= |entries|
  {
    if k == 0 then 0 else |Text.Join(entries[..k], [d])| + 1
  }

  /**
    Removing a whole entry whose text is the first match: the first and the
    last entry leave cleanly, but an entry in the middle takes both of its
    delimiters with it, so its two neighbours run together.
  */
  lemma {:induction false} RemoveEntry(entries: seq<string>, d: char, k: nat)
    requires k < |entries|
    requires Text.Find(Text.Join(entries, [d]), entries[k]) == Some(EntryOffset(entries, d, k))
    ensures var r := Removed(Text.Join(entries, [d]), entries[k]);
      r.1 &&
      r.0 == if k == 0 then Text.Join(entries[1..], [d])
             else if k == |entries| - 1 then Text.Join(entries[..k], [d])
             else Text.Join(entries[..k], [d]) + Text.Join(entries[k + 1..], [d])
  {
    var a, t, b := entries[..k], entries[k], entries[k + 1..];
    var storage := Text.Join(entries, [d]);
    assert entries == a + [t] + b;
    if |a| == 0 && |b| == 0 {
      assert entries == [t];
      RemovedOnly(t);
    } else if |a| == 0 {
      assert entries == [t] + b;
      assert storage == t + [d] + Text.Join(b, [d]);
      assert entries[1..] == b;
      RemovedFirst(t, Text.Join(b, [d]), d);
    } else if |b| == 0 {
      assert entries == a + [t];
      Text.JoinAppend(a, [t], [d]);
      RemovedLast(Text.Join(a, [d]), t, d);
    } else {
      Text.JoinAppend(a, [t] + b, [d]);
      assert ([t] + b)[1..] == b;
      assert Text.Join([t] + b, [d]) == t + [d] + Text.Join(b, [d]);
      assert a + ([t] + b) == entries;
      var ja := Text.Join(a, [d]);
      assert storage == ja + [d] + (t + [d] + Text.Join(b, [d]));
      assert storage == ja + [d] + t + [d] + Text.Join(b, [d]);
      RemovedMiddle(ja, t, Text.Join(b, [d]), d);
    }
  }

  /** Removing the whole storage leaves nothing. */
  lemma RemovedOnly(t: string)
    requires Text.Find(t, t) == Some(0)
    ensures Removed(t, t) == ("", true)
  {
  }

  /** Removing a leading entry takes the delimiter after it. */
  lemma RemovedFirst(t: string, rest: string, d: char)
    requires Text.Find(t + [d] + rest, t) == Some(0)
    ensures Removed(t + [d] + rest, t) == (rest, true)
  {
    var s := t + [d] + rest;
    assert s[|t| + 1..] == rest;
  }

  /** Removing a trailing entry takes the delimiter before it. */
  lemma RemovedLast(before: string, t: string, d: char)
    requires Text.Find(before + [d] + t, t) == Some(|before| + 1)
    ensures Removed(before + [d] + t, t) == (before, true)
  {
    var s := before + [d] + t;
    assert s[..|before|] == before;
  }

  /** Removing an entry in the middle takes the delimiters on both sides. */
  lemma RemovedMiddle(before: string, t: string, after: string, d: char)
    requires Text.Find(before + [d] + t + [d] + after, t) == Some(|before| + 1)
    ensures Removed(before + [d] + t + [d] + after, t) == (before + after, true)
  {
    var s := before + [d] + t + [d] + after;
    assert s[..|before|] == before;
    assert s[|before| + 1 + |t| + 1..] == after;
  }

  /** The middle entry of `a,b,c` goes with both commas: `ac` is left. */
  lemma RemoveMiddleEntryJoinsNeighbours()
    ensures Removed("a,b,c", "b") == ("ac", true)
  {
    var s := "a,b,c";
    assert s[0..1] == "a" && s[1..2] == "," && s[2..3] == "b";
    assert Text.FindFrom(s, "b", 2) == Some(2);
    assert Text.FindFrom(s, "b", 1) == Some(2);
    assert Text.FindFrom(s, "b", 0) == Some(2);
    assert s[..1] + s[4..] == "ac";
  }

  /** Matching is by substring: removing `b` from `ab,c` also deletes the entry `ab`. */
  lemma RemoveMatchesInsideEntries()
    ensures Removed("ab,c", "b") == ("c", true)
  {
    var s := "ab,c";
    assert s[0..1] == "a" && s[1..2] == "b";
    assert Text.FindFrom(s, "b", 1) == Some(1);
    assert Text.FindFrom(s, "b", 0) == Some(1);
    assert s[..0] + s[3..] == "c";
  }

  /** Popping the only entry returns nothing and keeps it. */
  lemma PopSingleEntryKeepsIt()
    ensures Popped("en", ',') == ("en", None)
  {
  }

  // ---------------------------------------------------------------- delimited value list: the container

  /**
    `DelimitedValues<DELIMITER, V>`: a list of values of type `kind` kept as one
    string, `inner`, with entries separated by `delimiter`.
  */
  class DelimitedValues {
    const delimiter: char
    const kind: ValueKind
    var inner: string

    /** `DelimitedValues::new` (and `with_capacity`, whose capacity does not show). */
    constructor (delimiter: char, kind: ValueKind)
      ensures this.delimiter == delimiter && this.kind == kind
      ensures inner == ""
    {
      this.delimiter := delimiter;
      this.kind := kind;
      inner := "";
    }

    /** `push`: append a delimiter when the storage is not empty, then the value's text. */
    method Push(value: AttrValue)
      requires KindOf(value) == kind
      modifies this
      ensures inner == Pushed(old(inner), delimiter, Serialized(value))
    {
      if inner != "" {
        inner := inner + [delimiter];
      }
      match AsStr(value) {
        case Some(it) => inner := inner + it;
        case None => inner := inner + ValueToString(value);
      }
    }

    /** `push_str`: like `push`, with the text given directly and trusted to parse as `V`. */
    method PushStr(value: string)
      modifies this
      ensures inner == Pushed(old(inner), delimiter, value)
    {
      if inner != "" {
        inner := inner + [delimiter];
      }
      inner := inner + value;
    }

    /** `pop`: split at the last delimiter, drop it, return the tail read back as `V`. */
    method Pop() returns (r: Option<AttrValue>)
      modifies this
      ensures inner == Popped(old(inner), delimiter).0
      ensures r.None? <==> Popped(old(inner), delimiter).1.None?
      ensures r.Some? ==> r.value == FromStringUnsafe(kind, Popped(old(inner), delimiter).1.value)
    {
      match Text.RFind(inner, delimiter) {
        case Some(last) =>
          var tail := inner[last + 1..];
          inner := inner[..last];
          r := Some(FromStringUnsafe(kind, tail));
        case None =>
          r := None;
      }
    }

    /** `remove`: cut out the first occurrence of the value's text and one character on each side that has one. */
    method Remove(value: AttrValue) returns (found: bool)
      modifies this
      ensures (inner, found) == Removed(old(inner), Serialized(value))
    {
      var text := Serialized(value);
      match Text.Find(inner, text) {
        case Some(start) =>
          var end := start + |text|;
          if end != |inner| {
            end := end + 1;
          }
          var from := start;
          if from != 0 {
            from := from - 1;
          }
          inner := inner[..from] + inner[end..];
          found := true;
        case None =>
          found := false;
      }
    }

    /** `contains`: substring search for the value's text; the storage is only read. */
    function Contains(value: AttrValue): (r: bool)
      reads this
      ensures r <==> Text.Contains(inner, Serialized(value))
    {
      Text.Find(inner, Serialized(value)).Some?
    }

    /** `iter`: the delimiter-separated pieces of the storage. */
    function Iter(): (r: seq<string>)
      reads this
      ensures |r| >= 1
      ensures Text.Join(r, [delimiter]) == inner
      ensures forall k :: 0 <= k < |r| ==> delimiter !in r[k]
    {
      Text.JoinSplit(inner, delimiter);
      Text.Split(inner, delimiter)
    }

    /** `iter_values`: the pieces read back as values of the list's type. */
    function IterValues(): (r: seq<AttrValue>)
      reads this
      ensures |r| == |Iter()|
      ensures forall k :: 0 <= k < |r| ==> KindOf(r[k]) == kind && Serialized(r[k]) == Iter()[k]
    {
      var pieces := Iter();
      seq(|pieces|, k requires 0 <= k < |pieces| => FromStringUnsafe(kind, pieces[k]))
    }

    /** `to_string`: the storage, verbatim. */
    function ToString(): (r: string)
      reads this
      ensures r == inner
    {
      inner
    }

    /** `Writable::write_to`: the storage, verbatim. */
    method WriteTo(w: Io.Writer, settings: Io.WriteSettings)
      modifies w
      ensures w.written == old(w.written) + inner
    {
      w.Write(inner);
    }
  }

  // ---------------------------------------------------------------- named attributes

  /** The two context-independent attributes: `DataAttribute` and `NonStandardAttribute`. */
  datatype NamedAttribute =
    | DataAttribute(name: string, value: string)
    | NonStandardAttribute(name: string, value: string)

  /** `DataAttribute::new`: the name gets the `data-` prefix, the value is kept. */
  function NewDataAttribute(name: string, value: string): (r: NamedAttribute)
    ensures r.DataAttribute?
    ensures |r.name| == |name| + 5 && r.name[..5] == "data-" && r.name[5..] == name
    ensures r.value == value
  {
    DataAttribute("data-" + name, value)
  }

  /** `write_attribute` of both attribute types: `name="value"`, nothing escaped. */
  function WriteAttribute(a: NamedAttribute, settings: Io.WriteSettings): (r: string)
    ensures |r| == |a.name| + |a.value| + 3
    ensures r[..|a.name|] == a.name && r[|a.name|..|a.name| + 2] == "=\""
    ensures r[|a.name| + 2..|r| - 1] == a.value && r[|r| - 1] == '"'
  {
    a.name + "=\"" + a.value + "\""
  }

  /** `write_attribute` on a sink. */
  method WriteAttributeTo(w: Io.Writer, a: NamedAttribute, settings: Io.WriteSettings)
    modifies w
    ensures w.written == old(w.written) + WriteAttribute(a, settings)
  {
    w.Write(a.name + "=\"" + a.value + "\"");
  }
}
