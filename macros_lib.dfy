/**
  The struct-level half of `#[derive(BundleAttributes)]`
  (macros/src/lib.rs): which fields become attribute blocks and which
  become nested-bundle blocks, how field errors abort the expansion, and
  what the generated `write_attributes` writes and returns.
*/
module MacroLib {
  import opened Wrappers
  import opened MacroUtil
  import opened MacroBundle
  import Io
  import Common
  import Text

  // ---------------------------------------------------------------------
  // Expansion

  /** `syn::Data` of the derive input. */
  datatype Data = StructData(fields: seq<Field>) | EnumData | UnionData

  /**
    The generated `write_attributes`: the attribute blocks in field order,
    then the nested-bundle blocks (by field name) in field order.
  */
  datatype Generated = Generated(checks: seq<XmlAttribute>, bundles: seq<string>)

  /** `iter().filter_map(f)`: the `Some` results of `f`, in order. */
  function FilterMap<T, U>(f: T -> Option<U>, xs: seq<T>): (r: seq<U>)
    ensures |r| <= |xs|
  {
    if xs == [] then []
    else
      var kept := f(xs[|xs| - 1]);
      FilterMap(f, xs[..|xs| - 1]) + (if kept.Some? then [kept.value] else [])
  }

  /** Filtering a concatenation filters each part. */
  lemma {:induction false} FilterMapAppend<T, U>(f: T -> Option<U>, a: seq<T>, b: seq<T>)
    ensures FilterMap(f, a + b) == FilterMap(f, a) + FilterMap(f, b)
  {
    if b == [] {
      assert a + b == a;
    } else {
      var front := b[..|b| - 1];
      FilterMapAppend(f, a, front);
      assert (a + b)[..|a + b| - 1] == a + front;
      assert (a + b)[|a + b| - 1] == b[|b| - 1];
    }
  }

  /** An element `f` rejects contributes nothing. */
  lemma FilterMapRejects<T, U>(f: T -> Option<U>, x: T)
    requires f(x).None?
    ensures FilterMap(f, [x]) == []
  {
    assert [x][..0] == [];
  }

  /** A list every element of which `f` accepts filters to the accepted values. */
  lemma {:induction false} FilterMapAll<T, U>(f: T -> Option<U>, xs: seq<T>, ys: seq<U>)
    requires |xs| == |ys|
    requires forall i :: 0 <= i < |xs| ==> f(xs[i]) == Some(ys[i])
    ensures FilterMap(f, xs) == ys
  {
    if xs != [] {
      var n := |xs| - 1;
      FilterMapAll(f, xs[..n], ys[..n]);
      assert ys == ys[..n] + [ys[n]];
    }
  }

  /** A list `f` rejects entirely filters to nothing. */
  lemma {:induction false} FilterMapNone<T, U>(f: T -> Option<U>, xs: seq<T>)
    requires forall i :: 0 <= i < |xs| ==> f(xs[i]).None?
    ensures FilterMap(f, xs) == []
  {
    if xs != [] {
      FilterMapNone(f, xs[..|xs| - 1]);
    }
  }

  /** `fields.iter().filter_map(XmlAttribute::new)`. */
  function AttributeEntries(fields: seq<Field>): (r: seq<Result<XmlAttribute, Error>>)
    ensures |r| <= |fields|
  {
    FilterMap(NewXmlAttribute, fields)
  }

  /** `fields.iter().filter_map(XmlAttributeBundle::new)`. */
  function BundleEntries(fields: seq<Field>): (r: seq<Result<string, Error>>)
    ensures |r| <= |fields|
  {
    FilterMap(NewXmlAttributeBundle, fields)
  }

  /**
    The expansion of a struct: any attribute-field error aborts with all
    attribute-field errors combined, before bundle fields are looked at;
    then any bundle-field error aborts likewise; otherwise both lists of
    blocks, each in field declaration order.
  */
  function Expand(fields: seq<Field>): (r: Result<Generated, Error>)
    ensures AnyErr(AttributeEntries(fields)) ==> r == Err(Flatten(AttributeEntries(fields)).error)
    ensures !AnyErr(AttributeEntries(fields)) && AnyErr(BundleEntries(fields)) ==> r == Err(Flatten(BundleEntries(fields)).error)
    ensures r.Ok? <==> !AnyErr(AttributeEntries(fields)) && !AnyErr(BundleEntries(fields))
    ensures r.Ok? ==> r.value.checks == Values(AttributeEntries(fields)) && r.value.bundles == Values(BundleEntries(fields))
  {
    match Flatten(AttributeEntries(fields))
    case Err(e) => Err(e)
    case Ok(checks) =>
      match Flatten(BundleEntries(fields))
      case Err(e) => Err(e)
      case Ok(bundles) => Ok(Generated(checks, bundles))
  }

  /** `attrib_bundle`: structs expand; enums and unions hit `todo!()` and panic (`None`). */
  function AttribBundle(input: Data): (r: Option<Result<Generated, Error>>)
    ensures r.Some? <==> input.StructData?
    ensures r.Some? ==> r.value == Expand(input.fields)
  {
    match input
    case StructData(fields) => Some(Expand(fields))
    case _ => None
  }

  /** Two concatenations with the same entries expand the same way. */
  lemma SameEntriesSameExpansion(x: seq<Field>, y: seq<Field>)
    requires AttributeEntries(x) == AttributeEntries(y) && BundleEntries(x) == BundleEntries(y)
    ensures Expand(x) == Expand(y)
  {
  }

  /** A field with neither annotation. */
  predicate Unannotated(f: Field)
  {
    FromFieldAttribute(f.attrs, "xml_attribute").None? && FromFieldAttribute(f.attrs, "xml_attribute_bundle").None?
  }

  /** Fields carrying neither annotation contribute nothing to the expansion. */
  lemma UnannotatedFieldIgnored(a: seq<Field>, f: Field, b: seq<Field>)
    requires Unannotated(f)
    ensures Expand(a + [f] + b) == Expand(a + b)
  {
    FilterMapRejects(NewXmlAttribute, f);
    FilterMapRejects(NewXmlAttributeBundle, f);
    FilterMapAppend(NewXmlAttribute, a + [f], b);
    FilterMapAppend(NewXmlAttribute, a, [f]);
    FilterMapAppend(NewXmlAttribute, a, b);
    FilterMapAppend(NewXmlAttributeBundle, a + [f], b);
    FilterMapAppend(NewXmlAttributeBundle, a, [f]);
    FilterMapAppend(NewXmlAttributeBundle, a, b);
    SameEntriesSameExpansion(a + [f] + b, a + b);
  }

  /**
    Only the order within each kind of field matters: moving a bundle field
    in front of an attribute field (as `ElementPath` declares them) changes
    nothing in the expansion.
  */
  lemma BundleFieldPositionIrrelevant(a: seq<Field>, attr: Field, bundle: Field, b: seq<Field>)
    requires NewXmlAttributeBundle(attr).None? && NewXmlAttribute(bundle).None?
    ensures Expand(a + [bundle, attr] + b) == Expand(a + [attr, bundle] + b)
  {
    SwapEntries(NewXmlAttribute, bundle, attr);
    SwapEntries(NewXmlAttributeBundle, attr, bundle);
    SwapWithin(NewXmlAttribute, a, bundle, attr, b);
    SwapWithin(NewXmlAttributeBundle, a, bundle, attr, b);
    SameEntriesSameExpansion(a + [bundle, attr] + b, a + [attr, bundle] + b);
  }

  /** Swapping a rejected element with its neighbour does not change the filtered list. */
  lemma SwapEntries<T, U>(f: T -> Option<U>, rejected: T, x: T)
    requires f(rejected).None?
    ensures FilterMap(f, [rejected, x]) == FilterMap(f, [x, rejected])
  {
    assert [rejected, x] == [rejected] + [x];
    assert [x, rejected] == [x] + [rejected];
    FilterMapAppend(f, [rejected], [x]);
    FilterMapAppend(f, [x], [rejected]);
    FilterMapRejects(f, rejected);
  }

  /** Two neighbours that filter the same in either order do so inside any list. */
  lemma SwapWithin<T, U>(f: T -> Option<U>, a: seq<T>, x: T, y: T, b: seq<T>)
    requires FilterMap(f, [x, y]) == FilterMap(f, [y, x])
    ensures FilterMap(f, a + [x, y] + b) == FilterMap(f, a + [y, x] + b)
  {
    FilterMapAppend(f, a + [x, y], b);
    FilterMapAppend(f, a + [y, x], b);
    FilterMapAppend(f, a, [x, y]);
    FilterMapAppend(f, a, [y, x]);
  }

  // ---------------------------------------------------------------------
  // The generated write_attributes

  /**
    A value that implements `AttributeBundle` at run time: a struct with
    derived blocks (its attribute fields with their values, then its nested
    bundles), or one of the hand-written impls for an attribute, an
    optional attribute and a vector of attributes. `Box` is transparent.
  */
  datatype Bundle =
    | Derived(attributes: seq<(XmlAttribute, Value)>, nested: seq<Bundle>)
    | SingleAttribute(attribute: Common.NamedAttribute)
    | OptionalAttribute(optional: Option<Common.NamedAttribute>)
    | AttributeVec(items: seq<Common.NamedAttribute>)

  /** Binds a generated impl to a struct instance: each block with the value of its field. */
  function Bind(gen: Generated, values: map<string, Value>, nested: map<string, Bundle>): (b: Bundle)
    requires forall i :: 0 <= i < |gen.checks| ==> gen.checks[i].name in values
    requires forall i :: 0 <= i < |gen.bundles| ==> gen.bundles[i] in nested
    ensures b.Derived? && |b.attributes| == |gen.checks| && |b.nested| == |gen.bundles|
    ensures forall i :: 0 <= i < |gen.checks| ==> b.attributes[i] == (gen.checks[i], values[gen.checks[i].name])
    ensures forall i :: 0 <= i < |gen.bundles| ==> b.nested[i] == nested[gen.bundles[i]]
  {
    Derived(
      seq(|gen.checks|, i requires 0 <= i < |gen.checks| => (gen.checks[i], values[gen.checks[i].name])),
      seq(|gen.bundles|, i requires 0 <= i < |gen.bundles| => nested[gen.bundles[i]]))
  }

  /**
    The attribute blocks run one after another, from `wrote_any_attributes
    = false`; a false flag means nothing was written.
  */
  function AttributesOutput(attrs: seq<(XmlAttribute, Value)>, env: Env): (r: (string, bool))
    ensures !r.1 ==> r.0 == ""
  {
    if attrs == [] then ("", false)
    else
      var front := AttributesOutput(attrs[..|attrs| - 1], env);
      var last := Block(attrs[|attrs| - 1].0, attrs[|attrs| - 1].1, env, front.1);
      (front.0 + last.0, last.1)
  }

  /** The tokens the attribute blocks emit, in order. */
  function EmittedTokens(attrs: seq<(XmlAttribute, Value)>, env: Env): seq<string>
  {
    if attrs == [] then []
    else
      var front := EmittedTokens(attrs[..|attrs| - 1], env);
      match Emitted(attrs[|attrs| - 1].0, attrs[|attrs| - 1].1, env)
      case None => front
      case Some(token) => front + [token]
  }

  /** `write_attributes` of a bundle: what it writes and what it returns. */
  function BundleOutput(b: Bundle, env: Env): (r: (string, bool))
    ensures !r.1 ==> r.0 == ""
    decreases b, 1, 0
  {
    match b
    case Derived(_, nested) => NestedOutput(b, |nested|, env)
    case SingleAttribute(a) => Io.SingleBundle(a, env.settings, Common.WriteAttribute)
    case OptionalAttribute(o) => Io.OptionBundle(o, env.settings, Common.WriteAttribute)
    case AttributeVec(v) => Io.VecBundle(v, env.settings, Common.WriteAttribute)
  }

  /**
    The derived `write_attributes` up to its `n`-th nested-bundle block:
    all attribute blocks first, then each nested block writes `" "` when
    something was already written (even if the nested bundle then writes
    nothing) and ORs the nested result into the flag.
  */
  function NestedOutput(b: Bundle, n: nat, env: Env): (r: (string, bool))
    requires b.Derived? && n <= |b.nested|
    ensures !r.1 ==> r.0 == ""
    decreases b, 0, n
  {
    if n == 0 then AttributesOutput(b.attributes, env)
    else
      var front := NestedOutput(b, n - 1, env);
      var inner := BundleOutput(b.nested[n - 1], env);
      (front.0 + (if front.1 then " " else "") + inner.0, front.1 || inner.1)
  }

  /**
    With attribute blocks only, the output is the emitted tokens joined by
    single spaces, with no leading or trailing space, and the flag says
    whether any was emitted.
  */
  lemma {:induction false} AttributesJoined(attrs: seq<(XmlAttribute, Value)>, env: Env)
    ensures AttributesOutput(attrs, env).0 == Text.Join(EmittedTokens(attrs, env), " ")
    ensures AttributesOutput(attrs, env).1 <==> |EmittedTokens(attrs, env)| > 0
  {
    if attrs != [] {
      var front := attrs[..|attrs| - 1];
      AttributesJoined(front, env);
      var last := attrs[|attrs| - 1];
      match Emitted(last.0, last.1, env) {
        case None =>
        case Some(token) =>
          if |EmittedTokens(front, env)| > 0 {
            Text.JoinAppend(EmittedTokens(front, env), [token], " ");
          }
      }
    }
  }

  /** No block emits: no tokens. */
  lemma {:induction false} NoTokens(attrs: seq<(XmlAttribute, Value)>, env: Env)
    requires forall i :: 0 <= i < |attrs| ==> Emitted(attrs[i].0, attrs[i].1, env).None?
    ensures EmittedTokens(attrs, env) == []
  {
    if attrs != [] {
      NoTokens(attrs[..|attrs| - 1], env);
    }
  }

  /** Exactly one block emits: its token is the only one. */
  lemma {:induction false} OneToken(attrs: seq<(XmlAttribute, Value)>, k: nat, env: Env)
    requires k < |attrs| && Emitted(attrs[k].0, attrs[k].1, env).Some?
    requires forall i :: 0 <= i < |attrs| && i != k ==> Emitted(attrs[i].0, attrs[i].1, env).None?
    ensures EmittedTokens(attrs, env) == [Emitted(attrs[k].0, attrs[k].1, env).value]
  {
    var front := attrs[..|attrs| - 1];
    if k == |attrs| - 1 {
      NoTokens(front, env);
    } else {
      OneToken(front, k, env);
    }
  }

  /** A struct with attribute fields only writes its tokens joined by single spaces. */
  lemma OnlyAttributes(attrs: seq<(XmlAttribute, Value)>, env: Env)
    ensures BundleOutput(Derived(attrs, []), env) ==
      (Text.Join(EmittedTokens(attrs, env), " "), |EmittedTokens(attrs, env)| > 0)
  {
    AttributesJoined(attrs, env);
  }

  /** Nothing in the bundle writes anything. */
  predicate Silent(b: Bundle, env: Env)
    decreases b
  {
    match b
    case Derived(attrs, nested) =>
      |EmittedTokens(attrs, env)| == 0 && forall i :: 0 <= i < |nested| ==> Silent(nested[i], env)
    case SingleAttribute(_) => false
    case OptionalAttribute(o) => o.None?
    case AttributeVec(v) => v == []
  }

  /** A token is never empty. */
  lemma {:induction false} TokensNonEmpty(attrs: seq<(XmlAttribute, Value)>, env: Env)
    ensures forall k :: 0 <= k < |EmittedTokens(attrs, env)| ==> |EmittedTokens(attrs, env)[k]| > 0
  {
    if attrs != [] {
      TokensNonEmpty(attrs[..|attrs| - 1], env);
    }
  }

  /** Joining pieces the first of which is not empty gives a non-empty text. */
  lemma JoinNonEmpty(parts: seq<string>, sep: string)
    requires |parts| > 0 && |parts[0]| > 0
    ensures |Text.Join(parts, sep)| > 0
  {
  }

  /**
    Up to the `n`-th nested block the flag is true exactly when something
    was written, which is exactly when an attribute block emitted or one
    of the first `n` nested bundles is not silent.
  */
  lemma {:induction false} NestedFlag(b: Bundle, n: nat, env: Env)
    requires b.Derived? && n <= |b.nested|
    ensures NestedOutput(b, n, env).1 <==> NestedOutput(b, n, env).0 != []
    ensures NestedOutput(b, n, env).1 <==>
      |EmittedTokens(b.attributes, env)| > 0 || exists i :: 0 <= i < n && !Silent(b.nested[i], env)
    decreases b, 0, n
  {
    if n == 0 {
      AttributesJoined(b.attributes, env);
      var tokens := EmittedTokens(b.attributes, env);
      if |tokens| > 0 {
        TokensNonEmpty(b.attributes, env);
        JoinNonEmpty(tokens, " ");
      }
    } else {
      NestedFlag(b, n - 1, env);
      BundleFlag(b.nested[n - 1], env);
    }
  }

  /**
    The flag `write_attributes` returns is true exactly when it wrote
    something, and exactly when the bundle is not silent.
  */
  lemma {:induction false} BundleFlag(b: Bundle, env: Env)
    ensures BundleOutput(b, env).1 <==> BundleOutput(b, env).0 != []
    ensures BundleOutput(b, env).1 <==> !Silent(b, env)
    decreases b, 1, 0
  {
    match b {
      case Derived(attrs, nested) =>
        NestedFlag(b, |nested|, env);
      case SingleAttribute(a) =>
        assert |Common.WriteAttribute(a, env.settings)| > 0;
      case OptionalAttribute(o) =>
        if o.Some? {
          assert |Common.WriteAttribute(o.value, env.settings)| > 0;
        }
      case AttributeVec(v) =>
        if v != [] {
          var parts := Io.Rendered(v, env.settings, Common.WriteAttribute);
          assert |parts[0]| > 0;
          JoinNonEmpty(parts, "");
        }
    }
  }

  /** A struct in which nothing is emitted writes nothing and returns false. */
  lemma SilentWritesNothing(b: Bundle, env: Env)
    requires Silent(b, env)
    ensures BundleOutput(b, env) == ("", false)
  {
    BundleFlag(b, env);
  }

  /**
    The separator is written before a nested bundle as soon as something
    was written, even when that bundle writes nothing: the output then
    ends in a space.
  */
  lemma SeparatorBeforeSilentBundle(attrs: seq<(XmlAttribute, Value)>, inner: Bundle, env: Env)
    requires AttributesOutput(attrs, env).1
    requires Silent(inner, env)
    ensures BundleOutput(Derived(attrs, [inner]), env) == (AttributesOutput(attrs, env).0 + " ", true)
  {
    var b := Derived(attrs, [inner]);
    SilentWritesNothing(inner, env);
    assert BundleOutput(b, env) == NestedOutput(b, 1, env);
    assert NestedOutput(b, 0, env) == AttributesOutput(attrs, env);
    var before := AttributesOutput(attrs, env).0;
    assert NestedOutput(b, 1, env).0 == before + " " + BundleOutput(inner, env).0;
    assert before + " " + "" == before + " ";
  }

  /**
    Whatever the nested bundles write comes after everything the
    attribute blocks wrote: the attribute output is a prefix of the whole.
  */
  lemma {:induction false} AttributesComeFirst(b: Bundle, n: nat, env: Env)
    requires b.Derived? && n <= |b.nested|
    ensures AttributesOutput(b.attributes, env).0 <= NestedOutput(b, n, env).0
  {
    if n > 0 {
      AttributesComeFirst(b, n - 1, env);
      var front := NestedOutput(b, n - 1, env);
      var inner := BundleOutput(b.nested[n - 1], env);
      assert front.0 <= front.0 + (if front.1 then " " else "") + inner.0;
    }
  }

  /** Each of the bundles' output after one separator, as the nested blocks write them once the flag is set. */
  function SeparatedOutputs(bs: seq<Bundle>, env: Env): string
  {
    if bs == [] then ""
    else SeparatedOutputs(bs[..|bs| - 1], env) + " " + BundleOutput(bs[|bs| - 1], env).0
  }

  /**
    Once an attribute block has written something, every nested block
    writes exactly one separator and then its bundle's output, silent or
    not, and the flag stays true.
  */
  lemma {:induction false} NestedAfterAttributes(b: Bundle, n: nat, env: Env)
    requires b.Derived? && n <= |b.nested|
    requires AttributesOutput(b.attributes, env).1
    ensures NestedOutput(b, n, env) == (AttributesOutput(b.attributes, env).0 + SeparatedOutputs(b.nested[..n], env), true)
  {
    if n == 0 {
      assert b.nested[..0] == [];
      assert AttributesOutput(b.attributes, env).0 + "" == AttributesOutput(b.attributes, env).0;
    } else {
      NestedAfterAttributes(b, n - 1, env);
      assert b.nested[..n][..n - 1] == b.nested[..n - 1];
      var attrs := AttributesOutput(b.attributes, env).0;
      var before := SeparatedOutputs(b.nested[..n - 1], env);
      var inner := BundleOutput(b.nested[n - 1], env).0;
      assert SeparatedOutputs(b.nested[..n], env) == before + " " + inner;
      assert attrs + before + " " + inner == attrs + (before + " " + inner);
    }
  }

  /** Two nested bundles after the flag is set. */
  lemma SeparatedTwo(x: Bundle, y: Bundle, env: Env)
    ensures SeparatedOutputs([x, y], env) == " " + BundleOutput(x, env).0 + " " + BundleOutput(y, env).0
  {
    assert [x, y][..1] == [x] && [x][..0] == [];
    assert SeparatedOutputs([x], env) == "" + " " + BundleOutput(x, env).0;
    assert "" + " " == " ";
  }

  /** Three nested bundles after the flag is set. */
  lemma SeparatedThree(x: Bundle, y: Bundle, z: Bundle, env: Env)
    ensures SeparatedOutputs([x, y, z], env) ==
      " " + BundleOutput(x, env).0 + " " + BundleOutput(y, env).0 + " " + BundleOutput(z, env).0
  {
    assert [x, y, z][..2] == [x, y];
    SeparatedTwo(x, y, env);
  }

  /** Three nested bundles after an attribute was written: one separator before each. */
  lemma ThreeNestedAfterAttributes(b: Bundle, env: Env)
    requires b.Derived? && |b.nested| == 3
    requires AttributesOutput(b.attributes, env).1
    ensures BundleOutput(b, env).0 == AttributesOutput(b.attributes, env).0 +
      " " + BundleOutput(b.nested[0], env).0 + " " + BundleOutput(b.nested[1], env).0 + " " + BundleOutput(b.nested[2], env).0
  {
    var x, y, z := b.nested[0], b.nested[1], b.nested[2];
    var a, sx, sy, sz := AttributesOutput(b.attributes, env).0, BundleOutput(x, env).0, BundleOutput(y, env).0, BundleOutput(z, env).0;
    assert BundleOutput(b, env) == NestedOutput(b, 3, env);
    NestedAfterAttributes(b, 3, env);
    assert b.nested[..3] == [x, y, z];
    SeparatedThree(x, y, z, env);
    assert NestedOutput(b, 3, env).0 == a + (" " + sx + " " + sy + " " + sz);
    assert a + (" " + sx + " " + sy + " " + sz) == a + " " + sx + " " + sy + " " + sz;
  }

  /** The generated nested-bundle block; the recursive call is `write_attributes` of the field. */
  method WriteNestedBlock(w: Io.Writer, inner: Bundle, env: Env, wrote: bool) returns (wroteAfter: bool)
    modifies w
    ensures w.written == old(w.written) + (if wrote then " " else "") + BundleOutput(inner, env).0
    ensures wroteAfter == (wrote || BundleOutput(inner, env).1)
    decreases inner, 2
  {
    if wrote {
      w.Write(" ");
    }
    var nestedWrote := WriteAttributes(w, inner, env);
    wroteAfter := wrote || nestedWrote;
  }

  /** The attribute blocks of `write_attributes`, one after another, starting with `wrote_any_attributes = false`. */
  method WriteBlocks(w: Io.Writer, attrs: seq<(XmlAttribute, Value)>, env: Env) returns (wrote: bool)
    modifies w
    ensures w.written == old(w.written) + AttributesOutput(attrs, env).0
    ensures wrote == AttributesOutput(attrs, env).1
  {
    wrote := false;
    for i := 0 to |attrs|
      invariant w.written == old(w.written) + AttributesOutput(attrs[..i], env).0
      invariant wrote == AttributesOutput(attrs[..i], env).1
    {
      assert attrs[..i + 1][..i] == attrs[..i];
      wrote := WriteBlock(w, attrs[i].0, attrs[i].1, env, wrote);
    }
    assert attrs[..|attrs|] == attrs;
  }

  /** The derived `write_attributes`: every attribute block, then every nested-bundle block. */
  method WriteDerived(w: Io.Writer, b: Bundle, env: Env) returns (wrote: bool)
    requires b.Derived?
    modifies w
    ensures w.written == old(w.written) + NestedOutput(b, |b.nested|, env).0
    ensures wrote == NestedOutput(b, |b.nested|, env).1
    decreases b, 0
  {
    wrote := WriteBlocks(w, b.attributes, env);
    for i := 0 to |b.nested|
      invariant w.written == old(w.written) + NestedOutput(b, i, env).0
      invariant wrote == NestedOutput(b, i, env).1
    {
      wrote := WriteNestedBlock(w, b.nested[i], env, wrote);
    }
  }

  /**
    `write_attributes` as generated: `wrote_any_attributes = false`, every
    attribute block, every nested-bundle block, then the flag; the
    hand-written impls for attributes, options and vectors.
  */
  method WriteAttributes(w: Io.Writer, b: Bundle, env: Env) returns (wrote: bool)
    modifies w
    ensures w.written == old(w.written) + BundleOutput(b, env).0
    ensures wrote == BundleOutput(b, env).1
    decreases b, 1
  {
    match b {
      case Derived(_, _) =>
        wrote := WriteDerived(w, b, env);
      case SingleAttribute(a) =>
        wrote := Io.WriteSingleBundle(w, a, env.settings, Common.WriteAttribute);
      case OptionalAttribute(o) =>
        wrote := Io.WriteOptionBundle(w, o, env.settings, Common.WriteAttribute);
      case AttributeVec(v) =>
        wrote := Io.WriteVecBundle(w, v, env.settings, Common.WriteAttribute);
    }
  }
}
