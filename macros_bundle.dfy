/**
  The field-level half of `#[derive(BundleAttributes)]`
  (macros/src/bundle.rs): the `key: value` pairs inside a field attribute,
  the policy `XmlAttribute::new` selects for a field, and the runtime
  meaning of the block of code generated for one field.

  syn's syntax trees are replaced by small descriptors: a token stream in
  which every expression is already one token, paths as segment lists,
  types as paths or "something else". Error spans are not modelled.
*/
module MacroBundle {
  import opened Wrappers
  import opened MacroUtil
  import Io
  import Math
  import Style
  import Path
  import Common

  // ---------------------------------------------------------------------
  // Syntax descriptors

  /** `syn::Type`: a path type, or any other kind of type. */
  datatype Type = TypePath(path: SynPath) | OtherType

  /** `syn::Path`: an optional leading `::` and the segments. */
  datatype SynPath = SynPath(leadingColon: bool, segments: seq<SynSegment>)

  /** `syn::PathSegment`. */
  datatype SynSegment = SynSegment(ident: string, arguments: PathArguments)

  /** `syn::PathArguments`. */
  datatype PathArguments = NoArguments | AngleBracketed(args: seq<GenericArgument>) | Parenthesized

  /** `syn::GenericArgument`: a type argument, or a lifetime, constant or binding. */
  datatype GenericArgument = TypeArgument(ty: Type) | OtherArgument

  /** `syn::Lit`: string, byte string, or any other literal. */
  datatype Lit = LitStr(value: string) | LitByteStr(bytes: string) | LitOther(code: string)

  /** `syn::Expr`: a closure, a path, a literal, or any other expression. */
  datatype Expr = ExprClosure(code: string) | ExprPath(path: SynPath) | ExprLit(lit: Lit) | ExprOther(code: string)

  /** The tokens inside `#[name { ... }]`, each expression already one token. */
  datatype Token = TIdent(name: string) | TColon | TComma | TExpr(expr: Expr)

  /** `MacroDelimiter`. */
  datatype Delimiter = Paren | Brace | Bracket

  /** `syn::Meta` of one field attribute. */
  datatype Meta = MetaPath(path: SynPath) | MetaList(path: SynPath, delimiter: Delimiter, tokens: seq<Token>) | MetaNameValue(path: SynPath)

  /** `syn::Field`: its attributes, its name (absent in tuple structs) and its type. */
  datatype Field = Field(attrs: seq<Meta>, ident: Option<string>, ty: Type)

  /** A path of one plain segment, as a bare identifier parses. */
  function SimplePath(name: string): SynPath
  {
    SynPath(false, [SynSegment(name, NoArguments)])
  }

  /** `Path::is_ident`: no leading `::`, one segment, no arguments, the given name. */
  predicate IsIdent(p: SynPath, name: string)
  {
    !p.leadingColon && |p.segments| == 1 && p.segments[0].arguments.NoArguments? && p.segments[0].ident == name
  }

  /** A path is the identifier `name` exactly when it is the bare path of `name`. */
  lemma IsIdentIsSimplePath(p: SynPath, name: string)
    ensures IsIdent(p, name) <==> p == SimplePath(name)
  {
    if IsIdent(p, name) {
      assert p.segments == [SynSegment(name, NoArguments)];
    }
  }

  /** An error with one message. */
  function Msg(message: string): Error
  {
    Error([message])
  }

  // ---------------------------------------------------------------------
  // KVPairs

  /** `KVPairs::data`: keys with their expressions, in source order. */
  type Pairs = seq<(string, Expr)>

  /** No key occurs twice. */
  predicate DistinctKeys(pairs: Pairs)
  {
    forall i, j :: 0 <= i < j < |pairs| ==> pairs[i].0 != pairs[j].0
  }

  /** The index of the first pair with key `key`. */
  function KeyIndex(pairs: Pairs, key: string): (r: Option<nat>)
    ensures r.Some? ==> r.value < |pairs| && pairs[r.value].0 == key
    ensures r.Some? ==> forall j :: 0 <= j < r.value ==> pairs[j].0 != key
    ensures r.None? <==> forall j :: 0 <= j < |pairs| ==> pairs[j].0 != key
  {
    if pairs == [] then None
    else if pairs[0].0 == key then Some(0)
    else
      match KeyIndex(pairs[1..], key)
      case None => None
      case Some(i) => Some(i + 1)
  }

  /** `KVPairs::get`: the expression of the first pair with that key. */
  function Get(pairs: Pairs, key: string): (r: Option<Expr>)
    ensures r.None? <==> forall j :: 0 <= j < |pairs| ==> pairs[j].0 != key
    ensures r.Some? ==> exists i :: (0 <= i < |pairs| && pairs[i] == (key, r.value) &&
      forall j :: 0 <= j < i ==> pairs[j].0 != key)
  {
    match KeyIndex(pairs, key)
    case None => None
    case Some(i) => Some(pairs[i].1)
  }

  /** The error `parse` reports for a repeated key: the key, then where it was first defined. */
  function DuplicateKey(): Error
  {
    Error(["duplicate key", "previously defined here"])
  }

  /** `input.parse::<Expr>()` on one token: a bare identifier is a path expression. */
  function ParseExpr(t: Token): (r: Result<Expr, Error>)
    ensures r.Ok? <==> t.TExpr? || t.TIdent?
    ensures t.TExpr? ==> r == Ok(t.expr)
    ensures t.TIdent? ==> r.value.ExprPath? && IsIdent(r.value.path, t.name)
  {
    match t
    case TExpr(e) => Ok(e)
    case TIdent(name) => Ok(ExprPath(SimplePath(name)))
    case _ => Err(Msg("expected an expression"))
  }

  /**
    `KVPairs::parse` on the tokens still to read, with the pairs read so
    far: `key`, a duplicate check against earlier keys, `:`, an expression,
    and then a `,` unless the input is exhausted.
  */
  function ParseRest(rest: seq<Token>, data: Pairs): (r: Result<Pairs, Error>)
    ensures r.Ok? ==> |r.value| >= |data| && PairTokens(|rest|, |r.value| - |data|)
    decreases |rest|
  {
    if rest == [] then Ok(data)
    else
      match rest[0]
      case TIdent(key) =>
        if KeyIndex(data, key).Some? then Err(DuplicateKey())
        else if |rest| < 2 || rest[1] != TColon then Err(Msg("expected `:`"))
        else if |rest| < 3 then Err(Msg("expected an expression"))
        else
          (match ParseExpr(rest[2])
           case Err(e) => Err(e)
           case Ok(value) =>
             if |rest| == 3 then Ok(data + [(key, value)])
             else if rest[3] != TComma then Err(Msg("expected `,`"))
             else ParseRest(rest[4..], data + [(key, value)]))
      case _ => Err(Msg("expected identifier"))
  }

  /**
    Every pair read takes four tokens (`key`, `:`, the expression, `,`),
    except that the comma after the last pair may be left out.
  */
  predicate PairTokens(tokens: nat, pairs: nat)
  {
    tokens == 4 * pairs || tokens == 4 * pairs - 1
  }

  /** `KVPairs::parse` of a whole token stream: an empty stream gives no pairs. */
  function Parse(tokens: seq<Token>): (r: Result<Pairs, Error>)
    ensures tokens == [] ==> r == Ok([])
    ensures r.Ok? ==> PairTokens(|tokens|, |r.value|)
  {
    ParseRest(tokens, [])
  }

  /**
    A successful parse extends the pairs already read, and its keys are
    distinct: a repeated key never gets through.
  */
  lemma {:induction false} ParseRestDistinct(rest: seq<Token>, data: Pairs)
    requires DistinctKeys(data)
    ensures ParseRest(rest, data).Ok? ==>
      DistinctKeys(ParseRest(rest, data).value) && data <= ParseRest(rest, data).value
    decreases |rest|
  {
    if rest != [] && rest[0].TIdent? && KeyIndex(data, rest[0].name).None? && |rest| >= 3 &&
       rest[1] == TColon && ParseExpr(rest[2]).Ok?
    {
      var next := data + [(rest[0].name, ParseExpr(rest[2]).value)];
      assert DistinctKeys(next);
      if |rest| > 3 && rest[3] == TComma {
        ParseRestDistinct(rest[4..], next);
      }
    }
  }

  /** Every parsed key is distinct. */
  lemma ParseDistinct(tokens: seq<Token>)
    ensures Parse(tokens).Ok? ==> DistinctKeys(Parse(tokens).value)
  {
    ParseRestDistinct(tokens, []);
  }

  /** The tokens of `key: value` pairs separated by commas, with an optional trailing comma. */
  function RenderPairs(pairs: Pairs, trailingComma: bool): seq<Token>
  {
    if pairs == [] then []
    else
      var first := [TIdent(pairs[0].0), TColon, TExpr(pairs[0].1)];
      if |pairs| == 1 then first + (if trailingComma then [TComma] else [])
      else first + [TComma] + RenderPairs(pairs[1..], trailingComma)
  }

  /** Parsing rendered pairs after `data`: all of them in order when keys stay distinct, else the duplicate error. */
  lemma {:induction false} ParseRenderRest(pairs: Pairs, trailingComma: bool, data: Pairs)
    requires DistinctKeys(data)
    ensures ParseRest(RenderPairs(pairs, trailingComma), data) ==
      if DistinctKeys(data + pairs) then Ok(data + pairs) else Err(DuplicateKey())
  {
    if pairs == [] {
      assert data + pairs == data;
    } else {
      var key := pairs[0].0;
      var rest := RenderPairs(pairs, trailingComma);
      assert rest[0] == TIdent(key) && rest[1] == TColon && rest[2] == TExpr(pairs[0].1);
      var next := data + [pairs[0]];
      assert next + pairs[1..] == data + pairs;
      match KeyIndex(data, key) {
        case Some(i) =>
          assert (data + pairs)[i].0 == (data + pairs)[|data|].0;
        case None =>
          assert DistinctKeys(next);
          if |pairs| == 1 {
            assert pairs[1..] == [];
            assert next == data + pairs;
          } else {
            assert rest[3] == TComma;
            assert rest[4..] == RenderPairs(pairs[1..], trailingComma);
            ParseRenderRest(pairs[1..], trailingComma, next);
          }
      }
    }
  }

  /**
    The parse of `k1: v1, k2: v2, ...` (with or without a trailing comma)
    is the pairs in source order when the keys are distinct, and the
    duplicate-key error otherwise.
  */
  lemma ParseRenderedPairs(pairs: Pairs, trailingComma: bool)
    ensures Parse(RenderPairs(pairs, trailingComma)) ==
      if DistinctKeys(pairs) then Ok(pairs) else Err(DuplicateKey())
  {
    ParseRenderRest(pairs, trailingComma, []);
    assert [] + pairs == pairs;
  }

  /** `KVPairs::parse` as written: a `while` loop that pushes each pair onto `data`. */
  method ParsePairs(tokens: seq<Token>) returns (r: Result<Pairs, Error>)
    ensures r == Parse(tokens)
  {
    var data: Pairs := [];
    var pos := 0;
    while pos < |tokens|
      invariant pos <= |tokens|
      invariant ParseRest(tokens[pos..], data) == Parse(tokens)
      decreases |tokens| - pos
    {
      var rest := tokens[pos..];
      assert rest[0] == tokens[pos];
      var key: string;
      match tokens[pos] {
        case TIdent(k) => key := k;
        case _ => return Err(Msg("expected identifier"));
      }
      if KeyIndex(data, key).Some? {
        return Err(DuplicateKey());
      }
      if pos + 1 >= |tokens| || tokens[pos + 1] != TColon {
        return Err(Msg("expected `:`"));
      }
      assert rest[1] == tokens[pos + 1];
      if pos + 2 >= |tokens| {
        return Err(Msg("expected an expression"));
      }
      assert rest[2] == tokens[pos + 2];
      var value: Expr;
      match ParseExpr(tokens[pos + 2]) {
        case Err(e) => return Err(e);
        case Ok(v) => value := v;
      }
      data := data + [(key, value)];
      pos := pos + 3;
      if pos < |tokens| {
        assert rest[3] == tokens[pos];
        if tokens[pos] != TComma {
          return Err(Msg("expected `,`"));
        }
        assert rest[4..] == tokens[pos + 1..];
        pos := pos + 1;
      }
    }
    r := Ok(data);
  }

  // ---------------------------------------------------------------------
  // from_field_attribute

  /** The attribute is `#[name]` or `#[name(...)]`, `#[name{...}]` or `#[name[...]]`. */
  predicate Names(m: Meta, name: string)
  {
    (m.MetaPath? || m.MetaList?) && IsIdent(m.path, name)
  }

  /** What `from_field_attribute` makes of one attribute. */
  function AttrPairs(m: Meta, name: string): (r: Option<Result<Pairs, Error>>)
    ensures r.Some? <==> Names(m, name)
    ensures r.Some? && m.MetaPath? ==> r.value == Ok([])
    ensures r.Some? && m.MetaList? && m.delimiter != Brace ==> r.value == Err(Msg("attribute expects brace delimiters"))
    ensures r.Some? && m.MetaList? && m.delimiter == Brace ==> r.value == Parse(m.tokens)
  {
    match m
    case MetaPath(p) => if IsIdent(p, name) then Some(Ok([])) else None
    case MetaList(p, delimiter, tokens) =>
      if IsIdent(p, name) then
        if delimiter != Brace then Some(Err(Msg("attribute expects brace delimiters")))
        else Some(Parse(tokens))
      else None
    case MetaNameValue(_) => None
  }

  /**
    `KVPairs::from_field_attribute`: the first attribute of the field that
    names `name` decides; name-value attributes and other names are skipped.
  */
  function FromFieldAttribute(attrs: seq<Meta>, name: string): (r: Option<Result<Pairs, Error>>)
    ensures r.None? <==> forall i :: 0 <= i < |attrs| ==> !Names(attrs[i], name)
    ensures r.Some? ==> exists i :: (0 <= i < |attrs| && Names(attrs[i], name) && r == AttrPairs(attrs[i], name) &&
      forall j :: 0 <= j < i ==> !Names(attrs[j], name))
  {
    if attrs == [] then None
    else
      match AttrPairs(attrs[0], name)
      case Some(x) => Some(x)
      case None =>
        var r := FromFieldAttribute(attrs[1..], name);
        assert forall i :: 1 <= i < |attrs| ==> attrs[i] == attrs[1..][i - 1];
        if r.Some? then
          var k :| 0 <= k < |attrs[1..]| && Names(attrs[1..][k], name) && r == AttrPairs(attrs[1..][k], name) &&
            forall j :: 0 <= j < k ==> !Names(attrs[1..][j], name);
          assert Names(attrs[k + 1], name) && r == AttrPairs(attrs[k + 1], name);
          assert forall j :: 0 <= j < k + 1 ==> !Names(attrs[j], name);
          r
        else r
  }

  // ---------------------------------------------------------------------
  // XmlAttribute::new

  /** `Check`: when the generated block runs. */
  datatype Check = CheckNone | CheckOptional | CheckDefault | CheckOther(closure: string)

  /** `ValueExpression`: what the generated block writes between the quotes. */
  datatype ValueExpression = Pass | Transform(expr: Expr) | Literal(bytes: string)

  /** `XmlAttribute`: the field, its output name, its type and its policies. */
  datatype XmlAttribute = XmlAttribute(name: string, attribName: string, ty: Type, check: Check, valueExpr: ValueExpression)

  /** `is_option`: the last path segment is `Option` with exactly one angle-bracketed argument. */
  predicate IsOption(ty: Type)
  {
    ty.TypePath? && |ty.path.segments| > 0 &&
    var last := ty.path.segments[|ty.path.segments| - 1];
    last.ident == "Option" && last.arguments.AngleBracketed? && |last.arguments.args| == 1
  }

  /** `Option<T>` counts under any prefix (`std::option::Option<T>`, even `my::Option<T>`). */
  lemma OptionTypesAreOptions(leadingColon: bool, prefix: seq<SynSegment>, t: Type)
    ensures IsOption(TypePath(SynPath(leadingColon, prefix + [SynSegment("Option", AngleBracketed([TypeArgument(t)]))])))
  {
  }

  /** A bare `Option`, `Option<A, B>`, another last segment, or a non-path type does not count. */
  lemma OtherTypesAreNotOptions(prefix: seq<SynSegment>, args: seq<GenericArgument>, other: string)
    requires |args| != 1 && other != "Option"
    ensures !IsOption(TypePath(SynPath(false, prefix + [SynSegment("Option", NoArguments)])))
    ensures !IsOption(TypePath(SynPath(false, prefix + [SynSegment("Option", AngleBracketed(args))])))
    ensures !IsOption(TypePath(SynPath(false, prefix + [SynSegment(other, AngleBracketed([OtherArgument]))])))
    ensures !IsOption(OtherType) && !IsOption(TypePath(SynPath(false, [])))
  {
  }

  /** The value policy: `transform` wins over `literal`, which must be a byte string; with neither, `Pass`. */
  function SelectValue(pairs: Pairs): (r: Result<ValueExpression, Error>)
    ensures r.Ok? && r.value.Transform? <==> Get(pairs, "transform").Some?
    ensures r.Ok? && r.value.Transform? ==> r.value.expr == Get(pairs, "transform").value
    ensures r.Ok? && r.value.Literal? <==>
      Get(pairs, "transform").None? && Get(pairs, "literal").Some? && Get(pairs, "literal").value.ExprLit? &&
      Get(pairs, "literal").value.lit.LitByteStr?
    ensures r.Ok? && r.value.Pass? <==> Get(pairs, "transform").None? && Get(pairs, "literal").None?
    ensures r.Ok? && r.value.Literal? ==> r.value.bytes == Get(pairs, "literal").value.lit.bytes
    ensures r.Err? ==> r.error == Msg("expected a byte string literal")
  {
    match Get(pairs, "transform")
    case Some(transform) => Ok(Transform(transform))
    case None =>
      match Get(pairs, "literal")
      case Some(literal) =>
        if literal.ExprLit? && literal.lit.LitByteStr? then Ok(Literal(literal.lit.bytes))
        else Err(Msg("expected a byte string literal"))
      case None => Ok(Pass)
  }

  /** The error for a `check` path that is not one of the three names. */
  const UnknownCheck := "expected one of: 'Default', 'Option', 'None'"

  /** The error for a `check` that is neither a closure nor a path. */
  const NotACheck := "expected a closure or one of: 'Default', 'Option', 'None'"

  /** The check policy of one explicit `check:` expression. */
  function CheckOf(e: Expr, ty: Type): (r: Result<Check, Error>)
    ensures r.Ok? && r.value.CheckOther? <==> e.ExprClosure?
    ensures r.Ok? && r.value.CheckOther? ==> r.value.closure == e.code
    ensures r.Ok? && r.value.CheckDefault? <==> e.ExprPath? && IsIdent(e.path, "Default")
    ensures r.Ok? && r.value.CheckOptional? <==> e.ExprPath? && IsIdent(e.path, "Option") && IsOption(ty)
    ensures r.Ok? && r.value.CheckNone? <==> e.ExprPath? && IsIdent(e.path, "None")
    ensures r.Err? <==> (!e.ExprClosure? && !(e.ExprPath? && (IsIdent(e.path, "Default") || IsIdent(e.path, "None") ||
      (IsIdent(e.path, "Option") && IsOption(ty)))))
  {
    match e
    case ExprClosure(code) => Ok(CheckOther(code))
    case ExprPath(p) =>
      if IsIdent(p, "Default") then Ok(CheckDefault)
      else if IsIdent(p, "Option") then
        if !IsOption(ty) then Err(Msg("'Option' only works on Option type")) else Ok(CheckOptional)
      else if IsIdent(p, "None") then Ok(CheckNone)
      else Err(Msg(UnknownCheck))
    case _ => Err(Msg(NotACheck))
  }

  /** The check policy: the explicit `check`, else `Optional` for an `Option` type and `None` otherwise. */
  function SelectCheck(pairs: Pairs, ty: Type): (r: Result<Check, Error>)
    ensures Get(pairs, "check").Some? ==> r == CheckOf(Get(pairs, "check").value, ty)
    ensures Get(pairs, "check").None? ==> (r.Ok? && (r.value == CheckOptional <==> IsOption(ty)) &&
      (r.value == CheckNone <==> !IsOption(ty)))
  {
    match Get(pairs, "check")
    case Some(e) => CheckOf(e, ty)
    case None => if IsOption(ty) then Ok(CheckOptional) else Ok(CheckNone)
  }

  /** The output name: a `name` string literal, else the field identifier verbatim. */
  function SelectName(pairs: Pairs, ident: string): (r: Result<string, Error>)
    ensures Get(pairs, "name").None? ==> r == Ok(ident)
    ensures Get(pairs, "name").Some? ==> (r.Ok? <==> Get(pairs, "name").value.ExprLit? && Get(pairs, "name").value.lit.LitStr?)
    ensures Get(pairs, "name").Some? && r.Ok? ==> r.value == Get(pairs, "name").value.lit.value
    ensures r.Err? ==> r.error == Msg("expected a string literal")
  {
    match Get(pairs, "name")
    case Some(e) =>
      if e.ExprLit? && e.lit.LitStr? then Ok(e.lit.value) else Err(Msg("expected a string literal"))
    case None => Ok(ident)
  }

  /**
    `XmlAttribute::new`: nothing for a field without `#[xml_attribute]`;
    otherwise its pairs, its identifier, then the value, check and name
    policies in that order, the first error winning.
  */
  function NewXmlAttribute(field: Field): (r: Option<Result<XmlAttribute, Error>>)
    ensures r.None? <==> FromFieldAttribute(field.attrs, "xml_attribute").None?
    ensures r.Some? && r.value.Ok? ==>
      FromFieldAttribute(field.attrs, "xml_attribute").Some? && FromFieldAttribute(field.attrs, "xml_attribute").value.Ok? &&
      var pairs := FromFieldAttribute(field.attrs, "xml_attribute").value.value;
      var a := r.value.value;
      field.ident == Some(a.name) && a.ty == field.ty &&
      SelectValue(pairs) == Ok(a.valueExpr) && SelectCheck(pairs, field.ty) == Ok(a.check) &&
      SelectName(pairs, a.name) == Ok(a.attribName)
    ensures r.Some? && field.ident.None? && FromFieldAttribute(field.attrs, "xml_attribute").value.Ok? ==>
      r.value == Err(Msg("expected an identifier"))
    ensures var ffa := FromFieldAttribute(field.attrs, "xml_attribute");
      ffa.Some? && ffa.value.Err? ==> r == Some(Err(ffa.value.error))
    ensures var ffa := FromFieldAttribute(field.attrs, "xml_attribute");
      ffa.Some? && ffa.value.Ok? && field.ident.Some? ==>
        var pairs, n := ffa.value.value, field.ident.value;
        var v, c, m := SelectValue(pairs), SelectCheck(pairs, field.ty), SelectName(pairs, n);
        r == if v.Err? then Some(Err(v.error))
             else if c.Err? then Some(Err(c.error))
             else if m.Err? then Some(Err(m.error))
             else Some(Ok(XmlAttribute(n, m.value, field.ty, c.value, v.value)))
  {
    match FromFieldAttribute(field.attrs, "xml_attribute")
    case None => None
    case Some(Err(e)) => Some(Err(e))
    case Some(Ok(pairs)) =>
      match field.ident
      case None => Some(Err(Msg("expected an identifier")))
      case Some(name) =>
        match SelectValue(pairs)
        case Err(e) => Some(Err(e))
        case Ok(valueExpr) =>
          match SelectCheck(pairs, field.ty)
          case Err(e) => Some(Err(e))
          case Ok(check) =>
            match SelectName(pairs, name)
            case Err(e) => Some(Err(e))
            case Ok(attribName) => Some(Ok(XmlAttribute(name, attribName, field.ty, check, valueExpr)))
  }

  /** A plain `#[xml_attribute]` on a named field: `Pass`, `Optional` exactly for `Option` types, the field's own name. */
  lemma PlainXmlAttribute(name: string, ty: Type, before: seq<Meta>, after: seq<Meta>)
    requires forall i :: 0 <= i < |before| ==> !Names(before[i], "xml_attribute")
    ensures
      var check := if IsOption(ty) then CheckOptional else CheckNone;
      NewXmlAttribute(Field(before + [MetaPath(SimplePath("xml_attribute"))] + after, Some(name), ty)) ==
        Some(Ok(XmlAttribute(name, name, ty, check, Pass)))
  {
    var attrs := before + [MetaPath(SimplePath("xml_attribute"))] + after;
    var r := FromFieldAttribute(attrs, "xml_attribute");
    assert Names(attrs[|before|], "xml_attribute");
    var i :| 0 <= i < |attrs| && Names(attrs[i], "xml_attribute") && r == AttrPairs(attrs[i], "xml_attribute") &&
      forall j :: 0 <= j < i ==> !Names(attrs[j], "xml_attribute");
    assert i == |before|;
  }

  /**
    `XmlAttributeBundle::new`: nothing for a field without
    `#[xml_attribute_bundle]`; the pairs are checked but ignored; the field
    needs an identifier.
  */
  function NewXmlAttributeBundle(field: Field): (r: Option<Result<string, Error>>)
    ensures r.None? <==> FromFieldAttribute(field.attrs, "xml_attribute_bundle").None?
    ensures r.Some? && FromFieldAttribute(field.attrs, "xml_attribute_bundle").value.Err? ==>
      r.value == Err(FromFieldAttribute(field.attrs, "xml_attribute_bundle").value.error)
    ensures r.Some? && FromFieldAttribute(field.attrs, "xml_attribute_bundle").value.Ok? ==>
      r.value == (if field.ident.Some? then Ok(field.ident.value) else Err(Msg("expected an identifier")))
  {
    match FromFieldAttribute(field.attrs, "xml_attribute_bundle")
    case None => None
    case Some(Err(e)) => Some(Err(e))
    case Some(Ok(_)) =>
      match field.ident
      case None => Some(Err(Msg("expected an identifier")))
      case Some(name) => Some(Ok(name))
  }

  // ---------------------------------------------------------------------
  // Runtime meaning of one generated block

  /**
    The value of a field at run time: an `Option`, one of the crate's
    `Writable` values, or a value of some other type (used only through
    `transform`, `literal` or a closure).
  */
  datatype Value =
    | Absent
    | Present(inner: Value)
    | Text(text: string)
    | Delimited(storage: string)
    | Declarations(list: seq<Style.Declaration>)
    | PathValue(path: Path.PathData)
    | Positive(number: Math.PositiveNumber)
    | Space(space: Common.XmlSpace)
    | Integer(integer: int)
    | Opaque(id: nat)

  /**
    `Writable::write_to` of a value: `Cow<str>`/`String` verbatim, a
    `DelimitedValues` its storage, a `DeclarationList`, `PathData` or
    `PositiveNumber` its text. Other types have no `Writable` form.
  */
  function WritableText(v: Value, settings: Io.WriteSettings, fmt: Math.Formatter): string
  {
    match v
    case Text(text) => text
    case Delimited(storage) => storage
    case Declarations(list) => Style.ListText(list)
    case PathValue(p) => Path.PathText(p.segments, settings, fmt)
    case Positive(n) => Math.PositiveNumberText(n, settings.precision, fmt)
    case _ => ""
  }

  /**
    What the generated code depends on besides the field values: the write
    settings, the number formatter, `== Default::default()` of the field's
    type, the user's check closures and `transform` expressions (evaluated
    with the local the check bound, if any).
  */
  datatype Env = Env(
    settings: Io.WriteSettings,
    fmt: Math.Formatter,
    isDefault: Value -> bool,
    call: (string, Value) -> bool,
    eval: (Expr, Option<Value>) -> string)

  /** Whether `Check::wrapped` runs the inner block, and the local it binds to the field's name. */
  datatype Gate = Skip | Run(bound: Option<Value>)

  /**
    `Check::wrapped`: `None` always runs with the field bound; `Optional`
    runs only for `Some`, bound to the unwrapped value; `Default` runs
    when the field EQUALS its default; `Other` when the closure returns
    true. `Default` and `Other` bind nothing.
  */
  function GateOf(check: Check, v: Value, env: Env): (g: Gate)
    ensures g.Run? <==>
      check.CheckNone? || (check.CheckOptional? && v.Present?) ||
      (check.CheckDefault? && env.isDefault(v)) || (check.CheckOther? && env.call(check.closure, v))
    ensures g.Run? && check.CheckNone? ==> g.bound == Some(v)
    ensures g.Run? && check.CheckOptional? ==> g.bound == Some(v.inner)
    ensures g.Run? && (check.CheckDefault? || check.CheckOther?) ==> g.bound.None?
  {
    match check
    case CheckNone => Run(Some(v))
    case CheckOptional => if v.Present? then Run(Some(v.inner)) else Skip
    case CheckDefault => if env.isDefault(v) then Run(None) else Skip
    case CheckOther(closure) => if env.call(closure, v) then Run(None) else Skip
  }

  /** `ValueExpression::handle`'s value part: `Pass` the bound value's `Writable` form, `Transform` the expression's bytes, `Literal` the fixed bytes. */
  function ValueText(ve: ValueExpression, bound: Option<Value>, env: Env): string
  {
    match ve
    case Pass => if bound.Some? then WritableText(bound.value, env.settings, env.fmt) else ""
    case Transform(e) => env.eval(e, bound)
    case Literal(bytes) => bytes
  }

  /** `ValueExpression::handle`: the key, the value's bytes as each kind writes them, and the closing quote. */
  method WriteValue(w: Io.Writer, key: string, ve: ValueExpression, bound: Option<Value>, env: Env)
    modifies w
    ensures w.written == old(w.written) + key + ValueText(ve, bound, env) + "\""
  {
    match ve {
      case Pass =>
        w.Write(key);
        w.Write(ValueText(Pass, bound, env));
        w.Write("\"");
      case Transform(e) =>
        w.Write(key);
        w.Write(env.eval(e, bound));
        w.Write("\"");
      case Literal(bytes) =>
        w.Write(key + bytes + "\"");
    }
  }

  /** Writing the separator, the key, the value and the closing quote appends one token. */
  lemma TokenAfter(start: string, sep: string, attribName: string, value: string)
    ensures start + sep + (attribName + "=\"") + value + "\"" == start + (sep + AttributeToken(attribName, value))
  {
  }

  /** One `name="value"` token. */
  function AttributeToken(attribName: string, value: string): string
  {
    attribName + "=\"" + value + "\""
  }

  /** A token reads back by position: the name, `="`, the value and the closing quote. */
  lemma AttributeTokenParts(attribName: string, value: string)
    ensures var t := AttributeToken(attribName, value);
      |t| == |attribName| + |value| + 3 &&
      t[..|attribName|] == attribName && t[|attribName|..|attribName| + 2] == "=\"" &&
      t[|attribName| + 2..|t| - 1] == value && t[|t| - 1] == '"'
  {
  }

  /** The token one field's block writes, if its check lets it run. */
  function Emitted(a: XmlAttribute, v: Value, env: Env): (r: Option<string>)
    ensures r.Some? <==> GateOf(a.check, v, env).Run?
  {
    match GateOf(a.check, v, env)
    case Skip => None
    case Run(bound) => Some(AttributeToken(a.attribName, ValueText(a.valueExpr, bound, env)))
  }

  /**
    One generated attribute block, from the flag it finds to the text it
    writes and the flag it leaves: a separator only when something was
    already written, then the token, and the flag becomes true.
  */
  function Block(a: XmlAttribute, v: Value, env: Env, wrote: bool): (r: (string, bool))
    ensures Emitted(a, v, env).None? ==> r == ("", wrote)
    ensures Emitted(a, v, env).Some? ==> r.1 && r.0 == (if wrote then " " else "") + Emitted(a, v, env).value
  {
    match Emitted(a, v, env)
    case None => ("", wrote)
    case Some(token) => ((if wrote then " " else "") + token, true)
  }

  /** The `Default` check runs exactly when the field equals its default, not when it differs. */
  lemma DefaultCheckRunsOnDefault(a: XmlAttribute, v: Value, env: Env)
    requires a.check == CheckDefault
    ensures Emitted(a, v, env).Some? <==> env.isDefault(v)
  {
  }

  /** A `Literal` writes the same token for every value that lets it run. */
  lemma LiteralIgnoresValue(a: XmlAttribute, v: Value, u: Value, env: Env)
    requires a.valueExpr.Literal?
    requires Emitted(a, v, env).Some? && Emitted(a, u, env).Some?
    ensures Emitted(a, v, env) == Emitted(a, u, env) == Some(AttributeToken(a.attribName, a.valueExpr.bytes))
  {
  }

  /** An optional field under `Pass` writes `name="text"` for `Some` and nothing for `None`. */
  lemma OptionalPassField(a: XmlAttribute, v: Value, env: Env)
    requires a.check == CheckOptional && a.valueExpr == Pass
    ensures v.Absent? ==> Emitted(a, v, env).None?
    ensures v.Present? ==> Emitted(a, v, env) == Some(AttributeToken(a.attribName, WritableText(v.inner, env.settings, env.fmt)))
  {
  }

  /** The generated block as it runs: `if wrote { " " }`, the key with `="`, the value, the closing quote. */
  method WriteBlock(w: Io.Writer, a: XmlAttribute, v: Value, env: Env, wrote: bool) returns (wroteAfter: bool)
    modifies w
    ensures w.written == old(w.written) + Block(a, v, env, wrote).0
    ensures wroteAfter == Block(a, v, env, wrote).1
  {
    var gate := GateOf(a.check, v, env);
    if gate.Skip? {
      return wrote;
    }
    ghost var start := w.written;
    ghost var sep := if wrote then " " else "";
    ghost var text := ValueText(a.valueExpr, gate.bound, env);
    if wrote {
      w.Write(" ");
    }
    var key := a.attribName + "=\"";
    WriteValue(w, key, a.valueExpr, gate.bound, env);
    assert w.written == start + sep + key + text + "\"";
    TokenAfter(start, sep, a.attribName, text);
    wroteAfter := true;
  }
}
