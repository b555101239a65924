/**
  Attribute groups of the specification scraper (spec-scraper/src/attribute.rs):
  value normalisation, the bundle struct name of a group, the registry of
  groups scraped so far, and the comma-separated form in which a list of
  groups is saved. The global `GROUPS` vector is a `Registry` object here;
  the scraped attributes of a group are an input. A panic of the original
  is `None` here.
*/
module ScraperAttribute {
  import opened Wrappers
  import Text
  import ScraperMain
  import ScraperElement

  /**
    `normalize_attribute_value`: the whitespace-separated words joined by
    single spaces. The result is single-spaced, neither starts nor ends with
    whitespace, and has the same words in the same order.
  */
  function NormalizeAttributeValue(raw: string): (r: string)
    ensures Text.SingleSpaced(r)
    ensures |r| > 0 ==> !Text.IsWhitespace(r[0]) && !Text.IsWhitespace(r[|r| - 1])
    ensures Text.Words(r) == Text.Words(raw)
  {
    var words := Text.Words(raw);
    Text.JoinWordsSingleSpaced(words);
    Text.WordsJoin(words);
    Text.Join(words, " ")
  }

  /** Normalising twice is normalising once. */
  lemma NormalizeIdempotent(raw: string)
    ensures NormalizeAttributeValue(NormalizeAttributeValue(raw)) == NormalizeAttributeValue(raw)
  {
  }

  /** An already single-spaced value made of words is left as it is. */
  lemma NormalizeJoinedWords(words: seq<string>)
    requires forall k :: 0 <= k < |words| ==> Text.IsWord(words[k])
    ensures NormalizeAttributeValue(Text.Join(words, " ")) == Text.Join(words, " ")
  {
    Text.WordsJoin(words);
  }

  /**
    `bundle_struct_name`: the space-separated words of the group name, each
    with its first character uppercased, written together. An empty word
    (an empty name, a leading, trailing or doubled space) panics.
  */
  function BundleStructName(name: string): (r: Option<string>)
    ensures r.Some? <==> ScraperElement.NoEmptyPiece(Text.Split(name, ' '))
  {
    ScraperElement.CapitalizedJoin(name, ' ')
  }

  /**
    Whenever it exists, the bundle name is the group name with its spaces
    removed and the first letter of each word uppercased; it holds no space.
  */
  lemma BundleStructNameSpelling(name: string)
    requires BundleStructName(name).Some?
    ensures BundleStructName(name).value == ScraperElement.CamelCase(name, ' ', true)
    ensures ' ' !in BundleStructName(name).value
    ensures |BundleStructName(name).value| == |name| - multiset(name)[' ']
  {
    ScraperElement.CapitalizedJoinIsCamelCase(name, ' ');
    ScraperElement.CamelCaseDropsSeparator(name, ' ', true);
    ScraperElement.CamelCaseLength(name, ' ', true);
  }

  /**
    Three words, as in `conditional processing attributes`, which gives
    `ConditionalProcessingAttributes`.
  */
  lemma BundleStructNameThreeWords(a: string, b: string, c: string)
    requires a != [] && b != [] && c != []
    requires ' ' !in a && ' ' !in b && ' ' !in c
    ensures BundleStructName(a + " " + b + " " + c)
         == Some(ScraperElement.Capitalize(a) + ScraperElement.Capitalize(b) + ScraperElement.Capitalize(c))
  {
    var ca, cb, cc := ScraperElement.Capitalize(a), ScraperElement.Capitalize(b), ScraperElement.Capitalize(c);
    ScraperElement.CapitalizedJoinOfPieces([a, b, c], ' ');
    assert Text.Join([a, b, c], [' ']) == a + " " + b + " " + c by {
      assert [a, b, c][1..] == [b, c];
      assert Text.Join([b, c], [' ']) == b + [' '] + c;
    }
    assert ScraperElement.Capitals([a, b, c]) == [ca, cb, cc];
    assert Text.Join([ca, cb, cc], "") == ca + cb + cc by {
      assert [ca, cb, cc][1..] == [cb, cc];
      assert Text.Join([cb, cc], "") == cb + "" + cc;
    }
  }

  /** An empty name has an empty word. */
  lemma BundleStructNameEmpty()
    ensures BundleStructName("").None?
  {
    assert Text.Split("", ' ')[0] == "";
  }

  /** `AttributeValue`: what the scraper learnt about an attribute's value. */
  datatype AttributeValue = AttributeValue(raw: string, ty: Option<string>, docs: Option<string>, guessed: bool, verified: bool)

  /** `AttributeInterface`: one scraped attribute of a group. */
  datatype AttributeInterface = AttributeInterface(name: string, value: AttributeValue, docs: string, verified: bool)

  /** `AttributeGroup`: a named group of attributes and the bundle struct generated for it. */
  datatype AttributeGroup = AttributeGroup(
    name: string,
    bundleName: string,
    attributes: seq<AttributeInterface>,
    docs: string,
    verified: bool)

  /** The group names of a registry, in order. */
  function GroupNames(groups: seq<AttributeGroup>): (r: seq<string>)
    ensures |r| == |groups| && forall k :: 0 <= k < |r| ==> r[k] == groups[k].name
  {
    seq(|groups|, k requires 0 <= k < |groups| => groups[k].name)
  }

  /** The bundle names of a list of groups, in order. */
  function BundleNames(groups: seq<AttributeGroup>): (r: seq<string>)
    ensures |r| == |groups| && forall k :: 0 <= k < |r| ==> r[k] == groups[k].bundleName
  {
    seq(|groups|, k requires 0 <= k < |groups| => groups[k].bundleName)
  }

  /** `Iterator::find` by key: the position of the first occurrence of `key`. */
  function FirstIndex(keys: seq<string>, key: string): (r: Option<nat>)
    ensures r.None? <==> key !in keys
    ensures r.Some? ==> r.value < |keys| && keys[r.value] == key
    ensures r.Some? ==> forall j :: 0 <= j < r.value ==> keys[j] != key
  {
    if keys == [] then None
    else if keys[0] == key then Some(0)
    else
      match FirstIndex(keys[1..], key)
      case None => None
      case Some(i) => Some(i + 1)
  }

  /** A key found before an appended entry is still found at the same place. */
  lemma FirstIndexAppend(keys: seq<string>, extra: string, key: string)
    ensures FirstIndex(keys + [extra], key)
         == if key in keys then FirstIndex(keys, key) else if key == extra then Some(|keys|) else None
  {
    var r := FirstIndex(keys + [extra], key);
    assert (keys + [extra])[|keys|] == extra;
    if key in keys {
      var i := FirstIndex(keys, key).value;
      assert (keys + [extra])[i] == key;
      FirstIndexUnique(keys + [extra], key, i);
    } else if key == extra {
      assert forall j :: 0 <= j < |keys| ==> (keys + [extra])[j] == keys[j];
      FirstIndexUnique(keys + [extra], key, |keys|);
    }
  }

  /** The first occurrence is the one with no earlier occurrence. */
  lemma FirstIndexUnique(keys: seq<string>, key: string, i: nat)
    requires i < |keys| && keys[i] == key
    requires forall j :: 0 <= j < i ==> keys[j] != key
    ensures FirstIndex(keys, key) == Some(i)
  {
    assert keys[i] in keys;
  }

  /** No two groups of the registry share a name. */
  predicate UniqueNames(groups: seq<AttributeGroup>)
  {
    forall i, j :: 0 <= i < j < |groups| ==> groups[i].name != groups[j].name
  }

  /**
    `AttributeGroup::from_link_and_attributes` on a registry value: the first
    cached group named `text` when there is one, the registry unchanged;
    otherwise a new unverified group with the bundle name of `text` and the
    documentation link of `target`, appended at the end. Deriving the bundle
    name or the link may panic, and then nothing is appended.
  */
  function LookupOrInsert(groups: seq<AttributeGroup>, text: string, target: string, attributes: seq<AttributeInterface>)
    : (r: (Option<AttributeGroup>, seq<AttributeGroup>))
    ensures r.0.Some? ==> r.0.value.name == text && r.0.value in r.1
    ensures text in GroupNames(groups) ==> r.1 == groups && r.0.Some?
    ensures text in GroupNames(groups) ==>
      r.0.value == groups[FirstIndex(GroupNames(groups), text).value]
    ensures text !in GroupNames(groups) && r.0.Some? ==>
              r.1 == groups + [r.0.value]
              && Some(r.0.value.bundleName) == BundleStructName(text)
              && Some(r.0.value.docs) == ScraperMain.SplitDocsLink(target)
              && r.0.value.attributes == attributes && !r.0.value.verified
    ensures r.0.None? <==> text !in GroupNames(groups)
                           && (BundleStructName(text).None? || ScraperMain.SplitDocsLink(target).None?)
    ensures r.0.None? ==> r.1 == groups
  {
    match FirstIndex(GroupNames(groups), text)
    case Some(i) => (Some(groups[i]), groups)
    case None =>
      match (BundleStructName(text), ScraperMain.SplitDocsLink(target))
      case (Some(bundleName), Some(docs)) =>
        var group := AttributeGroup(text, bundleName, attributes, docs, false);
        (Some(group), groups + [group])
      case _ => (None, groups)
  }

  /** Asking again for the same group returns it and changes nothing. */
  lemma LookupOrInsertTwice(groups: seq<AttributeGroup>, text: string, target: string, target2: string,
                            attributes: seq<AttributeInterface>, attributes2: seq<AttributeInterface>)
    requires LookupOrInsert(groups, text, target, attributes).0.Some?
    ensures var (g, after) := LookupOrInsert(groups, text, target, attributes);
            LookupOrInsert(after, text, target2, attributes2) == (g, after)
  {
    var (g, after) := LookupOrInsert(groups, text, target, attributes);
    if text !in GroupNames(groups) {
      assert GroupNames(after) == GroupNames(groups) + [text];
      FirstIndexAppend(GroupNames(groups), text, text);
    }
  }

  /** The registry never holds two groups of the same name. */
  lemma LookupOrInsertKeepsNamesUnique(groups: seq<AttributeGroup>, text: string, target: string,
                                       attributes: seq<AttributeInterface>)
    requires UniqueNames(groups)
    ensures UniqueNames(LookupOrInsert(groups, text, target, attributes).1)
  {
  }

  /** The scraper's registry of attribute groups, the `GROUPS` vector. */
  class Registry {
    var groups: seq<AttributeGroup>

    /** The registry starts empty. */
    constructor ()
      ensures groups == []
    {
      groups := [];
    }

    /**
      `from_link_and_attributes` for the link `(text, target)`: search the
      cached groups by name, or push a new group and return it.
    */
    method FromLinkAndAttributes(text: string, target: string, attributes: seq<AttributeInterface>)
      returns (r: Option<AttributeGroup>)
      modifies this
      ensures (r, groups) == LookupOrInsert(old(groups), text, target, attributes)
    {
      var i := 0;
      while i < |groups|
        invariant 0 <= i <= |groups| && groups == old(groups)
        invariant forall j :: 0 <= j < i ==> groups[j].name != text
      {
        if groups[i].name == text {
          FirstIndexUnique(GroupNames(groups), text, i);
          return Some(groups[i]);
        }
        i := i + 1;
      }
      var bundleName := BundleStructName(text);
      var docs := ScraperMain.SplitDocsLink(target);
      if bundleName.None? || docs.None? {
        return None;
      }
      var group := AttributeGroup(text, bundleName.value, attributes, docs.value, false);
      groups := groups + [group];
      r := Some(group);
    }
  }

  /** `serialize`: the bundle names of the groups joined by `,`, in list order. */
  function Serialize(value: seq<AttributeGroup>): (r: string)
    ensures (|value| > 0 && forall k :: 0 <= k < |value| ==> ',' !in value[k].bundleName) ==>
      Text.Split(r, ',') == BundleNames(value)
  {
    var names := BundleNames(value);
    if |value| > 0 && (forall k :: 0 <= k < |value| ==> ',' !in value[k].bundleName) then
      Text.SplitJoin(names, ',');
      Text.Join(names, ",")
    else
      Text.Join(names, ",")
  }

  /** The first registry group with the given bundle name. */
  function FindBundle(registry: seq<AttributeGroup>, bundleName: string): (r: Option<AttributeGroup>)
    ensures r.None? <==> bundleName !in BundleNames(registry)
    ensures r.Some? ==> r.value in registry && r.value.bundleName == bundleName
    ensures r.Some? ==>
      exists i :: 0 <= i < |registry| && registry[i] == r.value &&
        forall j :: 0 <= j < i ==> registry[j].bundleName != bundleName
  {
    match FirstIndex(BundleNames(registry), bundleName)
    case None => None
    case Some(i) => Some(registry[i])
  }

  /** Every name is the bundle name of some registry group. */
  predicate AllFound(names: seq<string>, registry: seq<AttributeGroup>)
  {
    forall k :: 0 <= k < |names| ==> names[k] in BundleNames(registry)
  }

  /** The `filter_map` of `deserialize`: the names found in the registry, in order. */
  function Found(names: seq<string>, registry: seq<AttributeGroup>): (r: seq<AttributeGroup>)
    ensures |r| <= |names|
    ensures |r| == |names| <==> AllFound(names, registry)
    ensures |r| == |names| ==> forall k :: 0 <= k < |r| ==> FindBundle(registry, names[k]) == Some(r[k])
  {
    if names == [] then []
    else
      var rest := Found(names[1..], registry);
      match FindBundle(registry, names[0])
      case None => rest
      case Some(g) => [g] + rest
  }

  /** The error `deserialize` reports when a bundle is missing. */
  const CacheMiss: string := "couldn't find required bundles in cache"

  /**
    `deserialize`: split the text on `,` and look every name up in the
    registry; succeed only when every name is found, with the first match of
    each, in order.
  */
  function Deserialize(s: string, registry: seq<AttributeGroup>): (r: Result<seq<AttributeGroup>, string>)
    ensures r.Ok? <==> AllFound(Text.Split(s, ','), registry)
    ensures r.Ok? ==> |r.value| == |Text.Split(s, ',')|
    ensures r.Ok? ==> forall k :: 0 <= k < |r.value| ==> FindBundle(registry, Text.Split(s, ',')[k]) == Some(r.value[k])
    ensures r.Err? ==> r.error == CacheMiss
  {
    var names := Text.Split(s, ',');
    var bundles := Found(names, registry);
    if |bundles| == |names| then Ok(bundles) else Err(CacheMiss)
  }

  /**
    Saving and loading a non-empty list of groups gives the list back, when
    no bundle name holds a `,` and each group is the first of its bundle
    name in the registry.
  */
  lemma DeserializeSerialize(value: seq<AttributeGroup>, registry: seq<AttributeGroup>)
    requires |value| > 0
    requires forall k :: 0 <= k < |value| ==> ',' !in value[k].bundleName
    requires forall k :: 0 <= k < |value| ==> FindBundle(registry, value[k].bundleName) == Some(value[k])
    ensures Deserialize(Serialize(value), registry) == Ok(value)
  {
    var names := BundleNames(value);
    assert Serialize(value) == Text.Join(names, [',']);
    Text.SplitJoin(names, ',');
    assert AllFound(names, registry);
    var r := Deserialize(Serialize(value), registry);
    assert r.Ok?;
    assert forall k :: 0 <= k < |value| ==> r.value[k] == value[k];
    assert r.value == value;
  }

  /**
    An empty list saves as the empty string, which loads as one group when
    some registry group has an empty bundle name, and fails otherwise.
  */
  lemma EmptyListRoundTrip(registry: seq<AttributeGroup>)
    ensures Serialize([]) == ""
    ensures "" in BundleNames(registry) ==> Deserialize("", registry) == Ok([FindBundle(registry, "").value])
    ensures "" !in BundleNames(registry) ==> Deserialize("", registry) == Err(CacheMiss)
  {
    assert Text.Split("", ',') == [""];
    assert Found([""], registry) == (match FindBundle(registry, "") case None => [] case Some(g) => [g]);
  }
}
