/**
  The derived attribute bundles of the crate as instances of the derive
  model: `CoreAttributes` and `ConditionalProcessing` (src/common.rs),
  `GraphicalEvents` (src/script.rs) and `ElementPath` with its
  `Writable` impl (src/path.rs). Each struct appears twice: as the field
  descriptors the derive macro reads, and as a record of field values
  bound to the blocks the expansion generates.
*/
module PathElement {
  import opened Wrappers
  import opened MacroUtil
  import opened MacroBundle
  import opened MacroLib
  import Io
  import Common
  import Style
  import Path
  import Math
  import Text

  // ---------------------------------------------------------------------
  // Field descriptors

  /** A one-segment type path with the given generic arguments (a lifetime is `OtherArgument`). */
  function TypeNamed(name: string, args: seq<GenericArgument>): Type
  {
    TypePath(SynPath(false, [SynSegment(name, if args == [] then NoArguments else AngleBracketed(args))]))
  }

  /** `Option<t>`. */
  function OptionOf(t: Type): Type
  {
    TypeNamed("Option", [TypeArgument(t)])
  }

  /** `Cow<'a, str>`. */
  function CowStr(): Type
  {
    TypeNamed("Cow", [OtherArgument, TypeArgument(TypeNamed("str", []))])
  }

  /** `LanguageTag<'a>`. */
  function LanguageTagType(): Type
  {
    TypeNamed("LanguageTag", [OtherArgument])
  }

  /** A `///` doc comment, which the macro sees as `#[doc = "..."]`. */
  function Doc(): Meta
  {
    MetaNameValue(SimplePath("doc"))
  }

  /** `#[xml_attribute]`. */
  function PlainAttribute(): Meta
  {
    MetaPath(SimplePath("xml_attribute"))
  }

  /** `#[xml_attribute_bundle]`. */
  function BundleAttribute(): Meta
  {
    MetaPath(SimplePath("xml_attribute_bundle"))
  }

  /** `#[xml_attribute { k1: v1, k2: v2 }]`, optionally with a trailing comma. */
  function AttributeWith(pairs: Pairs, trailingComma: bool): Meta
  {
    MetaList(SimplePath("xml_attribute"), Brace, RenderPairs(pairs, trailingComma))
  }

  /** A documented, annotated, named field. */
  function Documented(annotation: Meta, name: string, ty: Type): Field
  {
    Field([Doc(), annotation], Some(name), ty)
  }

  /** A doc comment in front of the annotation is skipped. */
  lemma DocIsSkipped(m: Meta, name: string)
    ensures FromFieldAttribute([Doc(), m], name) == AttrPairs(m, name)
  {
    assert [Doc(), m][1..] == [m];
    assert [m][1..] == [];
  }

  /** An annotated field whose policies all select: the descriptor they make, and no bundle. */
  lemma AnnotatedField(pairs: Pairs, trailingComma: bool, name: string, ty: Type)
    requires DistinctKeys(pairs)
    requires SelectValue(pairs).Ok? && SelectCheck(pairs, ty).Ok? && SelectName(pairs, name).Ok?
    ensures NewXmlAttribute(Documented(AttributeWith(pairs, trailingComma), name, ty)) ==
      Some(Ok(XmlAttribute(name, SelectName(pairs, name).value, ty, SelectCheck(pairs, ty).value, SelectValue(pairs).value)))
    ensures NewXmlAttributeBundle(Documented(AttributeWith(pairs, trailingComma), name, ty)).None?
  {
    DocIsSkipped(AttributeWith(pairs, trailingComma), "xml_attribute");
    DocIsSkipped(AttributeWith(pairs, trailingComma), "xml_attribute_bundle");
    ParseRenderedPairs(pairs, trailingComma);
  }

  /** A plain `#[xml_attribute]` field: `Pass`, its own name, `Optional` exactly for `Option` types. */
  lemma PlainField(name: string, ty: Type)
    ensures NewXmlAttribute(Documented(PlainAttribute(), name, ty)) ==
      Some(Ok(XmlAttribute(name, name, ty, if IsOption(ty) then CheckOptional else CheckNone, Pass)))
    ensures NewXmlAttributeBundle(Documented(PlainAttribute(), name, ty)).None?
  {
    PlainXmlAttribute(name, ty, [Doc()], []);
    assert [Doc()] + [PlainAttribute()] + [] == [Doc(), PlainAttribute()];
    DocIsSkipped(PlainAttribute(), "xml_attribute_bundle");
  }

  /** A `#[xml_attribute_bundle]` field: a nested-bundle block under its own name, no attribute block. */
  lemma BundleField(name: string, ty: Type)
    ensures NewXmlAttributeBundle(Documented(BundleAttribute(), name, ty)) == Some(Ok(name))
    ensures NewXmlAttribute(Documented(BundleAttribute(), name, ty)).None?
  {
    DocIsSkipped(BundleAttribute(), "xml_attribute_bundle");
    DocIsSkipped(BundleAttribute(), "xml_attribute");
  }

  /** Every value wrapped in `Ok`. */
  function Oks<T>(xs: seq<T>): (r: seq<Result<T, Error>>)
    ensures |r| == |xs| && forall i :: 0 <= i < |xs| ==> r[i] == Ok(xs[i])
  {
    seq(|xs|, i requires 0 <= i < |xs| => Ok(xs[i]))
  }

  /** Flattening nothing but `Ok`s gives the values back. */
  lemma FlattenOks<T>(xs: seq<T>)
    ensures Flatten(Oks(xs)) == Ok(xs)
  {
    var r := Flatten(Oks(xs));
    assert r.Ok?;
    assert r.value == xs;
  }

  /** Entries that are all `Ok` expand to their values. */
  lemma ExpandOks(fields: seq<Field>, checks: seq<XmlAttribute>, bundles: seq<string>)
    requires AttributeEntries(fields) == Oks(checks) && BundleEntries(fields) == Oks(bundles)
    ensures Expand(fields) == Ok(Generated(checks, bundles))
  {
    FlattenOks(checks);
    FlattenOks(bundles);
  }

  /** Filtering a list of accepted elements followed, or preceded, by rejected ones. */
  lemma FilterMapAround<T, U>(f: T -> Option<U>, kept: seq<T>, values: seq<U>, dropped: seq<T>)
    requires |kept| == |values|
    requires forall i :: 0 <= i < |kept| ==> f(kept[i]) == Some(values[i])
    requires forall i :: 0 <= i < |dropped| ==> f(dropped[i]).None?
    ensures FilterMap(f, kept + dropped) == values && FilterMap(f, dropped + kept) == values
  {
    FilterMapAll(f, kept, values);
    FilterMapNone(f, dropped);
    FilterMapAppend(f, kept, dropped);
    FilterMapAppend(f, dropped, kept);
    assert values + [] == values && [] + values == values;
  }

  /**
    The expansion of a struct made of attribute fields and bundle fields,
    whichever group is declared first.
  */
  lemma SplitExpansion(attrFields: seq<Field>, checks: seq<XmlAttribute>, bundleFields: seq<Field>, bundles: seq<string>)
    requires |attrFields| == |checks| && |bundleFields| == |bundles|
    requires forall i :: 0 <= i < |attrFields| ==> NewXmlAttribute(attrFields[i]) == Some(Ok(checks[i]))
    requires forall i :: 0 <= i < |attrFields| ==> NewXmlAttributeBundle(attrFields[i]).None?
    requires forall i :: 0 <= i < |bundleFields| ==> NewXmlAttributeBundle(bundleFields[i]) == Some(Ok(bundles[i]))
    requires forall i :: 0 <= i < |bundleFields| ==> NewXmlAttribute(bundleFields[i]).None?
    ensures Expand(attrFields + bundleFields) == Ok(Generated(checks, bundles))
    ensures Expand(bundleFields + attrFields) == Ok(Generated(checks, bundles))
  {
    FilterMapAround(NewXmlAttribute, attrFields, Oks(checks), bundleFields);
    FilterMapAround(NewXmlAttributeBundle, bundleFields, Oks(bundles), attrFields);
    ExpandOks(attrFields + bundleFields, checks, bundles);
    ExpandOks(bundleFields + attrFields, checks, bundles);
  }

  // ---------------------------------------------------------------------
  // CoreAttributes

  /** `#[xml_attribute { transform: id.as_bytes() }] id: Option<Cow<'a, str>>`. */
  function IdField(): Field
  {
    Documented(AttributeWith([("transform", ExprOther("id.as_bytes()"))], false), "id", OptionOf(CowStr()))
  }

  /** `#[xml_attribute { transform: tabindex.to_string().as_bytes() }] tabindex: Option<isize>`. */
  function TabindexField(): Field
  {
    Documented(AttributeWith([("transform", ExprOther("tabindex.to_string().as_bytes()"))], false), "tabindex",
      OptionOf(TypeNamed("isize", [])))
  }

  /** The pairs of `xml_lang`'s annotation. */
  function XmlLangPairs(): Pairs
  {
    [("name", ExprLit(LitStr("xml:lang"))), ("transform", ExprOther("xml_lang.as_bytes()"))]
  }

  /** `#[xml_attribute { name: "xml:lang", transform: xml_lang.as_bytes() }] xml_lang: Option<LanguageTag<'a>>`. */
  function XmlLangField(): Field
  {
    Documented(AttributeWith(XmlLangPairs(), false), "xml_lang", OptionOf(LanguageTagType()))
  }

  /** The pairs of `xml_space`'s annotation. */
  function XmlSpacePairs(): Pairs
  {
    [("name", ExprLit(LitStr("xml:space"))), ("check", ExprPath(SimplePath("Default"))), ("literal", ExprLit(LitByteStr("preserve")))]
  }

  /** `#[xml_attribute { name: "xml:space", check: Default, literal: b"preserve" }] xml_space: XmlSpace`. */
  function XmlSpaceField(): Field
  {
    Documented(AttributeWith(XmlSpacePairs(), false), "xml_space", TypeNamed("XmlSpace", []))
  }

  /** `#[xml_attribute] class: Option<DelimitedValues<' '>>`. */
  function ClassField(): Field
  {
    Documented(PlainAttribute(), "class", OptionOf(TypeNamed("DelimitedValues", [OtherArgument])))
  }

  /** `#[xml_attribute] style: Option<DeclarationList<'a>>`. */
  function StyleField(): Field
  {
    Documented(PlainAttribute(), "style", OptionOf(TypeNamed("DeclarationList", [OtherArgument])))
  }

  /** The `#[xml_attribute]` fields of `CoreAttributes`, in declaration order. */
  function CoreAttributeFields(): seq<Field>
  {
    [IdField(), TabindexField(), XmlLangField(), XmlSpaceField(), ClassField(), StyleField()]
  }

  /** The `#[xml_attribute_bundle]` fields of `CoreAttributes` (`data`, `other`), which are declared last. */
  function CoreBundleFields(): seq<Field>
  {
    [ Documented(BundleAttribute(), "data", TypeNamed("Vec", [TypeArgument(TypeNamed("DataAttribute", [OtherArgument]))])),
      Documented(BundleAttribute(), "other", TypeNamed("Vec", [TypeArgument(TypeNamed("NonStandardAttribute", [OtherArgument]))])) ]
  }

  /** The block generated for `id`. */
  function IdAttribute(): XmlAttribute
  {
    XmlAttribute("id", "id", OptionOf(CowStr()), CheckOptional, Transform(ExprOther("id.as_bytes()")))
  }

  /** The block generated for `tabindex`. */
  function TabindexAttribute(): XmlAttribute
  {
    XmlAttribute("tabindex", "tabindex", OptionOf(TypeNamed("isize", [])), CheckOptional,
      Transform(ExprOther("tabindex.to_string().as_bytes()")))
  }

  /** The block generated for `xml_lang`. */
  function XmlLangAttribute(): XmlAttribute
  {
    XmlAttribute("xml_lang", "xml:lang", OptionOf(LanguageTagType()), CheckOptional, Transform(ExprOther("xml_lang.as_bytes()")))
  }

  /** The block generated for `xml_space`. */
  function XmlSpaceAttribute(): XmlAttribute
  {
    XmlAttribute("xml_space", "xml:space", TypeNamed("XmlSpace", []), CheckDefault, Literal("preserve"))
  }

  /** What `#[derive(BundleAttributes)]` generates for `CoreAttributes`. */
  function CoreGenerated(): Generated
  {
    Generated(
      [ IdAttribute(), TabindexAttribute(), XmlLangAttribute(), XmlSpaceAttribute(),
        XmlAttribute("class", "class", OptionOf(TypeNamed("DelimitedValues", [OtherArgument])), CheckOptional, Pass),
        XmlAttribute("style", "style", OptionOf(TypeNamed("DeclarationList", [OtherArgument])), CheckOptional, Pass) ],
      ["data", "other"])
  }

  /**
    `CoreAttributes` expands to six attribute blocks (the transforms for
    `id`, `tabindex` and `xml:lang`, the `Default` check with the literal
    `preserve` for `xml:space`, plain `class` and `style`) and two
    nested-bundle blocks.
  */
  lemma CoreExpansion()
    ensures Expand(CoreAttributeFields() + CoreBundleFields()) == Ok(CoreGenerated())
  {
    var fields := CoreAttributeFields();
    var checks := CoreGenerated().checks;
    forall i | 0 <= i < |fields|
      ensures NewXmlAttribute(fields[i]) == Some(Ok(checks[i])) && NewXmlAttributeBundle(fields[i]).None?
    {
      CoreAttributeField(i);
    }
    var bundleFields := CoreBundleFields();
    var bundles := CoreGenerated().bundles;
    forall i | 0 <= i < |bundleFields|
      ensures NewXmlAttributeBundle(bundleFields[i]) == Some(Ok(bundles[i])) && NewXmlAttribute(bundleFields[i]).None?
    {
      if i == 0 {
        BundleField("data", TypeNamed("Vec", [TypeArgument(TypeNamed("DataAttribute", [OtherArgument]))]));
      } else {
        BundleField("other", TypeNamed("Vec", [TypeArgument(TypeNamed("NonStandardAttribute", [OtherArgument]))]));
      }
    }
    SplitExpansion(fields, checks, bundleFields, bundles);
  }

  /** The descriptor each attribute field of `CoreAttributes` makes. */
  lemma CoreAttributeField(i: nat)
    requires i < |CoreAttributeFields()|
    ensures NewXmlAttribute(CoreAttributeFields()[i]) == Some(Ok(CoreGenerated().checks[i]))
    ensures NewXmlAttributeBundle(CoreAttributeFields()[i]).None?
  {
    var field := CoreAttributeFields()[i];
    var check := CoreGenerated().checks[i];
    if i == 0 {
      assert field == IdField() && check == IdAttribute();
      IdPolicy();
    } else if i == 1 {
      assert field == TabindexField() && check == TabindexAttribute();
      TabindexPolicy();
    } else if i == 2 {
      assert field == XmlLangField() && check == XmlLangAttribute();
      XmlLangPolicy();
    } else if i == 3 {
      assert field == XmlSpaceField() && check == XmlSpaceAttribute();
      XmlSpacePolicy();
    } else if i == 4 {
      assert field == ClassField();
      PlainField("class", OptionOf(TypeNamed("DelimitedValues", [OtherArgument])));
    } else {
      assert field == StyleField();
      PlainField("style", OptionOf(TypeNamed("DeclarationList", [OtherArgument])));
    }
  }

  /** `id`: `Optional`, transformed, under its own name. */
  lemma IdPolicy()
    ensures NewXmlAttribute(IdField()) == Some(Ok(IdAttribute()))
    ensures NewXmlAttributeBundle(IdField()).None?
  {
    TransformField("id", "id.as_bytes()", OptionOf(CowStr()));
  }

  /** `tabindex`: `Optional`, transformed, under its own name. */
  lemma TabindexPolicy()
    ensures NewXmlAttribute(TabindexField()) == Some(Ok(TabindexAttribute()))
    ensures NewXmlAttributeBundle(TabindexField()).None?
  {
    TransformField("tabindex", "tabindex.to_string().as_bytes()", OptionOf(TypeNamed("isize", [])));
  }

  /** `#[xml_attribute { transform: e }]` on an `Option` field: `Optional`, the transform, the field's name. */
  lemma TransformField(name: string, code: string, ty: Type)
    requires IsOption(ty)
    ensures NewXmlAttribute(Documented(AttributeWith([("transform", ExprOther(code))], false), name, ty)) ==
      Some(Ok(XmlAttribute(name, name, ty, CheckOptional, Transform(ExprOther(code)))))
    ensures NewXmlAttributeBundle(Documented(AttributeWith([("transform", ExprOther(code))], false), name, ty)).None?
  {
    var pairs := [("transform", ExprOther(code))];
    assert Get(pairs, "transform") == Some(ExprOther(code));
    assert Get(pairs, "check").None? && Get(pairs, "name").None?;
    AnnotatedField(pairs, false, name, ty);
  }

  /** `xml_lang`: renamed to `xml:lang`, `Optional`, transformed. */
  lemma XmlLangPolicy()
    ensures NewXmlAttribute(XmlLangField()) == Some(Ok(XmlLangAttribute()))
    ensures NewXmlAttributeBundle(XmlLangField()).None?
  {
    var pairs := XmlLangPairs();
    assert KeyIndex(pairs, "transform") == Some(1);
    assert KeyIndex(pairs, "name") == Some(0);
    assert Get(pairs, "check").None?;
    AnnotatedField(pairs, false, "xml_lang", OptionOf(LanguageTagType()));
  }

  /** `xml_space`: renamed to `xml:space`, the `Default` check, the literal `preserve`. */
  lemma XmlSpacePolicy()
    ensures NewXmlAttribute(XmlSpaceField()) == Some(Ok(XmlSpaceAttribute()))
    ensures NewXmlAttributeBundle(XmlSpaceField()).None?
  {
    var pairs := XmlSpacePairs();
    assert KeyIndex(pairs, "literal") == Some(2);
    assert KeyIndex(pairs, "check") == Some(1);
    assert KeyIndex(pairs, "name") == Some(0);
    assert Get(pairs, "transform").None?;
    assert DistinctKeys(pairs);
    AnnotatedField(pairs, false, "xml_space", TypeNamed("XmlSpace", []));
  }

  // ---------------------------------------------------------------------
  // ConditionalProcessing

  /** `#[xml_attribute { name: "attribName", }]` (trailing comma as written) on an `Option` field. */
  function RenamedField(name: string, attribName: string, ty: Type): Field
  {
    Documented(AttributeWith([("name", ExprLit(LitStr(attribName)))], true), name, ty)
  }

  /** A renamed `Option` field: `Optional`, `Pass`, under the given name. */
  lemma RenamedPolicy(name: string, attribName: string, ty: Type)
    requires IsOption(ty)
    ensures NewXmlAttribute(RenamedField(name, attribName, ty)) == Some(Ok(XmlAttribute(name, attribName, ty, CheckOptional, Pass)))
    ensures NewXmlAttributeBundle(RenamedField(name, attribName, ty)).None?
  {
    var pairs := [("name", ExprLit(LitStr(attribName)))];
    assert Get(pairs, "name") == Some(ExprLit(LitStr(attribName)));
    assert Get(pairs, "transform").None? && Get(pairs, "literal").None? && Get(pairs, "check").None?;
    AnnotatedField(pairs, true, name, ty);
  }

  /** `DelimitedValues<' '>`. */
  function SpaceListType(): Type
  {
    TypeNamed("DelimitedValues", [OtherArgument])
  }

  /** `DelimitedValues<',', LanguageTag<'a>>`. */
  function LanguageListType(): Type
  {
    TypeNamed("DelimitedValues", [OtherArgument, TypeArgument(LanguageTagType())])
  }

  /** The fields of `ConditionalProcessing`, in declaration order. */
  function ConditionalFields(): seq<Field>
  {
    [ RenamedField("required_features", "requiredFeatures", OptionOf(SpaceListType())),
      RenamedField("required_extensions", "requiredExtensions", OptionOf(SpaceListType())),
      RenamedField("system_language", "systemLanguage", OptionOf(LanguageListType())) ]
  }

  /** What `#[derive(BundleAttributes)]` generates for `ConditionalProcessing`. */
  function ConditionalGenerated(): Generated
  {
    Generated(
      [ XmlAttribute("required_features", "requiredFeatures", OptionOf(SpaceListType()), CheckOptional, Pass),
        XmlAttribute("required_extensions", "requiredExtensions", OptionOf(SpaceListType()), CheckOptional, Pass),
        XmlAttribute("system_language", "systemLanguage", OptionOf(LanguageListType()), CheckOptional, Pass) ],
      [])
  }

  /** `ConditionalProcessing` expands to three optional blocks under their camel-case names, and no bundles. */
  lemma ConditionalExpansion()
    ensures Expand(ConditionalFields()) == Ok(ConditionalGenerated())
  {
    var fields := ConditionalFields();
    var checks := ConditionalGenerated().checks;
    forall i | 0 <= i < |fields|
      ensures NewXmlAttribute(fields[i]) == Some(Ok(checks[i])) && NewXmlAttributeBundle(fields[i]).None?
    {
      if i == 0 {
        RenamedPolicy("required_features", "requiredFeatures", OptionOf(SpaceListType()));
      } else if i == 1 {
        RenamedPolicy("required_extensions", "requiredExtensions", OptionOf(SpaceListType()));
      } else {
        RenamedPolicy("system_language", "systemLanguage", OptionOf(LanguageListType()));
      }
    }
    SplitExpansion(fields, checks, [], []);
    assert fields + [] == fields;
  }

  // ---------------------------------------------------------------------
  // GraphicalEvents

  /** The event-handler fields of `GraphicalEvents`, in declaration order. */
  function EventNames(): seq<string>
  {
    ["onfocusin", "onfocusout", "onactivate", "onclick", "onmousedown", "onmouseup", "onmouseover", "onmousemove", "onmouseout"]
  }

  /** The fields of `GraphicalEvents`: plain `#[xml_attribute]` on `Option<Cow<'a, str>>`. */
  function EventFields(): (r: seq<Field>)
    ensures |r| == |EventNames()|
    ensures forall i :: 0 <= i < |r| ==> r[i] == Documented(PlainAttribute(), EventNames()[i], OptionOf(CowStr()))
  {
    seq(|EventNames()|, i requires 0 <= i < |EventNames()| => Documented(PlainAttribute(), EventNames()[i], OptionOf(CowStr())))
  }

  /** The optional block of one event handler. */
  function EventAttribute(name: string): XmlAttribute
  {
    XmlAttribute(name, name, OptionOf(CowStr()), CheckOptional, Pass)
  }

  /** What `#[derive(BundleAttributes)]` generates for `GraphicalEvents`. */
  function EventsGenerated(): (g: Generated)
    ensures |g.checks| == |EventNames()| && g.bundles == []
    ensures forall i :: 0 <= i < |g.checks| ==> g.checks[i] == EventAttribute(EventNames()[i])
  {
    Generated(seq(|EventNames()|, i requires 0 <= i < |EventNames()| => EventAttribute(EventNames()[i])), [])
  }

  /** `GraphicalEvents` expands to nine optional blocks under the handler names, and no bundles. */
  lemma EventsExpansion()
    ensures Expand(EventFields()) == Ok(EventsGenerated())
  {
    var fields := EventFields();
    var checks := EventsGenerated().checks;
    forall i | 0 <= i < |fields|
      ensures NewXmlAttribute(fields[i]) == Some(Ok(checks[i])) && NewXmlAttributeBundle(fields[i]).None?
    {
      PlainField(EventNames()[i], OptionOf(CowStr()));
    }
    SplitExpansion(fields, checks, [], []);
    assert fields + [] == fields;
  }

  // ---------------------------------------------------------------------
  // ElementPath

  /** The three bundle fields of `ElementPath`, declared first. */
  function ElementPathBundleFields(): seq<Field>
  {
    [ Documented(BundleAttribute(), "conditional_processing",
        TypeNamed("Box", [TypeArgument(TypeNamed("ConditionalProcessing", [OtherArgument]))])),
      Documented(BundleAttribute(), "core", TypeNamed("Box", [TypeArgument(TypeNamed("CoreAttributes", [OtherArgument]))])),
      Documented(BundleAttribute(), "graphical_event",
        TypeNamed("Box", [TypeArgument(TypeNamed("GraphicalEvents", [OtherArgument]))])) ]
  }

  /** The two attribute fields of `ElementPath`, declared last. */
  function ElementPathAttributeFields(): seq<Field>
  {
    [ Documented(PlainAttribute(), "d", OptionOf(TypeNamed("PathDataImpl", [OtherArgument]))),
      Documented(PlainAttribute(), "path_length", OptionOf(TypeNamed("PositiveNumber", []))) ]
  }

  /**
    What `#[derive(BundleAttributes)]` generates for `ElementPath`. The
    `path_length` field has no `name`, so its attribute is written as
    `path_length`.
  */
  function ElementPathGenerated(): Generated
  {
    Generated(
      [ XmlAttribute("d", "d", OptionOf(TypeNamed("PathDataImpl", [OtherArgument])), CheckOptional, Pass),
        XmlAttribute("path_length", "path_length", OptionOf(TypeNamed("PositiveNumber", [])), CheckOptional, Pass) ],
      ["conditional_processing", "core", "graphical_event"])
  }

  /**
    Although the bundles are declared first, the expansion puts the `d` and
    `path_length` blocks in front of the three nested-bundle blocks.
  */
  lemma ElementPathExpansion()
    ensures Expand(ElementPathBundleFields() + ElementPathAttributeFields()) == Ok(ElementPathGenerated())
  {
    var fields := ElementPathAttributeFields();
    var checks := ElementPathGenerated().checks;
    forall i | 0 <= i < |fields|
      ensures NewXmlAttribute(fields[i]) == Some(Ok(checks[i])) && NewXmlAttributeBundle(fields[i]).None?
    {
      if i == 0 {
        PlainField("d", OptionOf(TypeNamed("PathDataImpl", [OtherArgument])));
      } else {
        PlainField("path_length", OptionOf(TypeNamed("PositiveNumber", [])));
      }
    }
    var bundleFields := ElementPathBundleFields();
    var bundles := ElementPathGenerated().bundles;
    forall i | 0 <= i < |bundleFields|
      ensures NewXmlAttributeBundle(bundleFields[i]) == Some(Ok(bundles[i])) && NewXmlAttribute(bundleFields[i]).None?
    {
      BundleField(bundles[i], bundleFields[i].ty);
    }
    SplitExpansion(fields, checks, bundleFields, bundles);
  }

  // ---------------------------------------------------------------------
  // Field values bound to the generated blocks

  /** An optional text field. */
  function TextValue(o: Option<string>): Value
  {
    if o.Some? then Present(Text(o.value)) else Absent
  }

  /** An optional delimited list, by its storage. */
  function ListValue(o: Option<string>): Value
  {
    if o.Some? then Present(Delimited(o.value)) else Absent
  }

  /** `CoreAttributes` values; each delimited list is given by its storage. */
  datatype CoreAttributes = CoreAttributes(
    id: Option<string>,
    tabindex: Option<int>,
    xmlLang: Option<Common.LanguageTag>,
    xmlSpace: Common.XmlSpace,
    classNames: Option<string>,
    style: Option<seq<Style.Declaration>>,
    data: seq<Common.NamedAttribute>,
    other: seq<Common.NamedAttribute>)

  /** `CoreAttributes::default()`. */
  function DefaultCore(): CoreAttributes
  {
    CoreAttributes(None, None, None, Common.SpaceDefault, None, None, [], [])
  }

  /**
    `Default` on an `XmlSpace` field is the derived one: `SpaceDefault` is
    the default value and `SpacePreserve` is not.
  */
  predicate DerivedSpaceDefault(env: Env)
  {
    env.isDefault(Space(Common.SpaceDefault)) && !env.isDefault(Space(Common.SpacePreserve))
  }

  /** The `AttributeBundle` of a `CoreAttributes` value: the generated blocks with its fields. */
  function CoreBundle(c: CoreAttributes): Bundle
  {
    var values := map[
      "id" := TextValue(c.id),
      "tabindex" := if c.tabindex.Some? then Present(Integer(c.tabindex.value)) else Absent,
      "xml_lang" := if c.xmlLang.Some? then Present(Text(c.xmlLang.value.text)) else Absent,
      "xml_space" := Space(c.xmlSpace),
      "class" := ListValue(c.classNames),
      "style" := if c.style.Some? then Present(Declarations(c.style.value)) else Absent];
    Bind(CoreGenerated(), values, map["data" := AttributeVec(c.data), "other" := AttributeVec(c.other)])
  }

  /** `ConditionalProcessing` values, each list given by its storage. */
  datatype ConditionalProcessing = ConditionalProcessing(
    requiredFeatures: Option<string>,
    requiredExtensions: Option<string>,
    systemLanguage: Option<string>)

  /** The `AttributeBundle` of a `ConditionalProcessing` value. */
  function ConditionalBundle(c: ConditionalProcessing): Bundle
  {
    var values := map[
      "required_features" := ListValue(c.requiredFeatures),
      "required_extensions" := ListValue(c.requiredExtensions),
      "system_language" := ListValue(c.systemLanguage)];
    Bind(ConditionalGenerated(), values, map[])
  }

  /** `GraphicalEvents` values: the handler code of each event, in `EventNames` order. */
  datatype GraphicalEvents = GraphicalEvents(handlers: seq<Option<string>>)

  /** `GraphicalEvents::default()`: no handler set. */
  function DefaultEvents(): (r: GraphicalEvents)
    ensures |r.handlers| == |EventNames()| && forall i :: 0 <= i < |r.handlers| ==> r.handlers[i].None?
  {
    GraphicalEvents(seq(|EventNames()|, _ => None))
  }

  /** The handler of each event, by field name (a missing handler is `None`). */
  function EventValues(g: GraphicalEvents): (m: map<string, Value>)
    ensures forall i :: 0 <= i < |EventNames()| ==> EventNames()[i] in m
  {
    map i | 0 <= i < |EventNames()| :: EventNames()[i] := TextValue(if i < |g.handlers| then g.handlers[i] else None)
  }

  /** The `AttributeBundle` of a `GraphicalEvents` value. */
  function EventsBundle(g: GraphicalEvents): Bundle
  {
    Bind(EventsGenerated(), EventValues(g), map[])
  }

  /** `ElementPath` values. */
  datatype ElementPath = ElementPath(
    conditionalProcessing: ConditionalProcessing,
    core: CoreAttributes,
    graphicalEvent: GraphicalEvents,
    d: Option<Path.PathData>,
    pathLength: Option<Math.PositiveNumber>)

  /** The `AttributeBundle` of an `ElementPath` value (the `Box`es are transparent). */
  function ElementPathBundle(e: ElementPath): Bundle
  {
    var values := map[
      "d" := if e.d.Some? then Present(PathValue(e.d.value)) else Absent,
      "path_length" := if e.pathLength.Some? then Present(Positive(e.pathLength.value)) else Absent];
    var nested := map[
      "conditional_processing" := ConditionalBundle(e.conditionalProcessing),
      "core" := CoreBundle(e.core),
      "graphical_event" := EventsBundle(e.graphicalEvent)];
    Bind(ElementPathGenerated(), values, nested)
  }

  /** `Writable for ElementPath`: `<path `, the attribute bundle, `/>`. */
  function ElementPathText(e: ElementPath, env: Env): string
  {
    "<path " + BundleOutput(ElementPathBundle(e), env).0 + "/>"
  }

  /** `write_to` of `ElementPath`, write by write. */
  method WriteElementPath(w: Io.Writer, e: ElementPath, env: Env)
    modifies w
    ensures w.written == old(w.written) + ElementPathText(e, env)
  {
    w.Write("<path ");
    var _ := WriteAttributes(w, ElementPathBundle(e), env);
    w.Write("/>");
  }

  // ---------------------------------------------------------------------
  // What the bundles write

  /** A struct with only optional blocks, all of whose fields are `None`, writes nothing. */
  lemma AbsentOptionalsWriteNothing(b: Bundle, env: Env)
    requires b.Derived? && b.nested == []
    requires forall i :: 0 <= i < |b.attributes| ==> b.attributes[i].0.check == CheckOptional && b.attributes[i].1 == Absent
    ensures BundleOutput(b, env) == ("", false)
  {
    NoTokens(b.attributes, env);
    SilentWritesNothing(b, env);
  }

  /** `ConditionalProcessing::default()` writes nothing. */
  lemma DefaultConditionalWritesNothing(env: Env)
    ensures BundleOutput(ConditionalBundle(ConditionalProcessing(None, None, None)), env) == ("", false)
  {
    AbsentOptionalsWriteNothing(ConditionalBundle(ConditionalProcessing(None, None, None)), env);
  }

  /** `GraphicalEvents::default()` writes nothing. */
  lemma DefaultEventsWriteNothing(env: Env)
    ensures BundleOutput(EventsBundle(DefaultEvents()), env) == ("", false)
  {
    AbsentOptionalsWriteNothing(EventsBundle(DefaultEvents()), env);
  }

  /** The token of `xml:space` under its literal. */
  function XmlSpaceToken(): string
  {
    "xml:space=\"preserve\""
  }

  /** The attribute blocks of a `CoreAttributes` whose only set field is `xml_space`. */
  lemma OnlyXmlSpaceBlock(c: CoreAttributes, env: Env)
    requires c.id.None? && c.tabindex.None? && c.xmlLang.None? && c.classNames.None? && c.style.None?
    ensures env.isDefault(Space(c.xmlSpace)) ==> EmittedTokens(CoreBundle(c).attributes, env) == [XmlSpaceToken()]
    ensures !env.isDefault(Space(c.xmlSpace)) ==> EmittedTokens(CoreBundle(c).attributes, env) == []
  {
    var attrs := CoreBundle(c).attributes;
    assert attrs[3] == (XmlSpaceAttribute(), Space(c.xmlSpace));
    forall i | 0 <= i < |attrs| && i != 3
      ensures Emitted(attrs[i].0, attrs[i].1, env).None?
    {
      assert attrs[i].0.check == CheckOptional && attrs[i].1 == Absent;
    }
    if env.isDefault(Space(c.xmlSpace)) {
      assert AttributeToken("xml:space", "preserve") == XmlSpaceToken();
      OneToken(attrs, 3, env);
    } else {
      NoTokens(attrs, env);
    }
  }

  /**
    `CoreAttributes::default()` is not silent: its `xml_space` is the
    default, so the `Default` check writes `xml:space="preserve"`; the two
    empty vectors that follow then each add a separator.
  */
  lemma DefaultCoreWritesXmlSpace(env: Env)
    requires DerivedSpaceDefault(env)
    ensures BundleOutput(CoreBundle(DefaultCore()), env) == (XmlSpaceToken() + "  ", true)
  {
    var b := CoreBundle(DefaultCore());
    OnlyXmlSpaceBlock(DefaultCore(), env);
    AttributesJoined(b.attributes, env);
    assert Text.Join([XmlSpaceToken()], " ") == XmlSpaceToken();
    NestedAfterAttributes(b, 2, env);
    var x := b.nested[0];
    var y := b.nested[1];
    assert BundleOutput(x, env) == ("", false) && BundleOutput(y, env) == ("", false);
    assert b.nested[..2] == [x, y];
    SeparatedTwo(x, y, env);
    assert XmlSpaceToken() + (" " + "" + " " + "") == XmlSpaceToken() + "  ";
  }

  /** With `xml_space` set to `Preserve`, which is not the default, a core bundle with nothing else set writes nothing. */
  lemma PreservedSpaceWritesNothing(env: Env)
    requires DerivedSpaceDefault(env)
    ensures BundleOutput(CoreBundle(DefaultCore().(xmlSpace := Common.SpacePreserve)), env) == ("", false)
  {
    var c := DefaultCore().(xmlSpace := Common.SpacePreserve);
    var b := CoreBundle(c);
    OnlyXmlSpaceBlock(c, env);
    assert Silent(b.nested[0], env) && Silent(b.nested[1], env);
    SilentWritesNothing(b, env);
  }

  /** The token of a set `d`. */
  function DToken(p: Path.PathData, env: Env): string
  {
    "d=\"" + Path.PathText(p.segments, env.settings, env.fmt) + "\""
  }

  /** The first attribute block of a path with `d` set writes the `d` token with no separator. */
  lemma DBlock(e: ElementPath, env: Env)
    requires e.d.Some?
    ensures var attrs := ElementPathBundle(e).attributes;
      |attrs| == 2 && Block(attrs[0].0, attrs[0].1, env, false) == (DToken(e.d.value, env), true)
  {
    var attrs := ElementPathBundle(e).attributes;
    var d := DToken(e.d.value, env);
    assert attrs[0] == (ElementPathGenerated().checks[0], Present(PathValue(e.d.value)));
    assert AttributeToken("d", Path.PathText(e.d.value.segments, env.settings, env.fmt)) == d;
    assert Emitted(attrs[0].0, attrs[0].1, env) == Some(d);
    assert (if false then " " else "") + d == d;
  }

  /** The attribute blocks of a path with `d` set: its token comes first, then `path_length`'s, if set. */
  lemma DAttributes(e: ElementPath, env: Env)
    requires e.d.Some?
    ensures AttributesOutput(ElementPathBundle(e).attributes, env).1
    ensures DToken(e.d.value, env) <= AttributesOutput(ElementPathBundle(e).attributes, env).0
    ensures e.pathLength.None? ==> AttributesOutput(ElementPathBundle(e).attributes, env).0 == DToken(e.d.value, env)
  {
    var attrs := ElementPathBundle(e).attributes;
    var d := DToken(e.d.value, env);
    DBlock(e, env);
    assert attrs[..1][..0] == [];
    assert AttributesOutput(attrs[..1], env) == ("" + d, true);
    assert "" + d == d;
    assert attrs[..2][..1] == attrs[..1] && attrs[..2] == attrs;
    var last := Block(attrs[1].0, attrs[1].1, env, true);
    assert AttributesOutput(attrs, env) == (d + last.0, true);
    if e.pathLength.None? {
      assert attrs[1].1 == Absent;
      assert d + "" == d;
    }
  }

  /** A path with `d` set writes `<path d="..."` first, before anything of its nested bundles. */
  lemma DComesFirst(e: ElementPath, env: Env)
    requires e.d.Some?
    ensures "<path " + DToken(e.d.value, env) <= ElementPathText(e, env)
  {
    var b := ElementPathBundle(e);
    DAttributes(e, env);
    AttributesComeFirst(b, |b.nested|, env);
  }

  /** The nested bundles of a path, in block order. */
  lemma ElementPathNested(e: ElementPath)
    ensures ElementPathBundle(e).nested ==
      [ConditionalBundle(e.conditionalProcessing), CoreBundle(e.core), EventsBundle(e.graphicalEvent)]
  {
  }

  /**
    Once an attribute of the path is written, the element is `<path `, the
    attribute tokens, each of the three nested bundles after one separator,
    and `/>`.
  */
  lemma ElementPathAfterAttributes(e: ElementPath, env: Env)
    requires AttributesOutput(ElementPathBundle(e).attributes, env).1
    ensures ElementPathText(e, env) ==
      "<path " + AttributesOutput(ElementPathBundle(e).attributes, env).0 +
      " " + BundleOutput(ConditionalBundle(e.conditionalProcessing), env).0 +
      " " + BundleOutput(CoreBundle(e.core), env).0 +
      " " + BundleOutput(EventsBundle(e.graphicalEvent), env).0 + "/>"
  {
    ElementPathNested(e);
    ThreeNestedAfterAttributes(ElementPathBundle(e), env);
  }

  /**
    A path with only `d` set: the three nested blocks each add a separator
    once `d` is written, whether or not they write anything, and the
    default core bundle adds `xml:space="preserve"` and its own two.
  */
  lemma PathWithOnlyD(p: Path.PathData, env: Env)
    requires DerivedSpaceDefault(env)
    ensures ElementPathText(ElementPath(ConditionalProcessing(None, None, None), DefaultCore(), DefaultEvents(), Some(p), None), env) ==
      "<path " + DToken(p, env) + "  " + XmlSpaceToken() + "   />"
  {
    var e := ElementPath(ConditionalProcessing(None, None, None), DefaultCore(), DefaultEvents(), Some(p), None);
    DAttributes(e, env);
    ElementPathAfterAttributes(e, env);
    DefaultConditionalWritesNothing(env);
    DefaultCoreWritesXmlSpace(env);
    DefaultEventsWriteNothing(env);
    Spacing(DToken(p, env), XmlSpaceToken());
  }

  /** The separators of `PathWithOnlyD`, counted. */
  lemma Spacing(d: string, x: string)
    ensures "<path " + d + " " + "" + " " + (x + "  ") + " " + "" + "/>" == "<path " + d + "  " + x + "   />"
  {
  }
}
