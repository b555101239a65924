/**
  Inline CSS declaration lists (src/style.rs), the value of the `style`
  attribute.
*/
module Style {
  import Io
  import Text

  /** One CSS declaration; `Empty` is the default and writes nothing. */
  datatype Declaration = Empty | Property(name: string, value: string)

  /** `Declaration::is_empty`. */
  function IsEmpty(d: Declaration): (r: bool)
    ensures r <==> d == Empty
  {
    d.Empty?
  }

  /** `Writable for Declaration`: nothing for `Empty`, `name:value` for a property. */
  function DeclarationText(d: Declaration): string
  {
    match d
    case Empty => ""
    case Property(name, value) => name + ":" + value
  }

  /**
    Only `Empty` writes nothing; a property's text reads back as its name,
    the first `:` after it, and its value.
  */
  lemma DeclarationTextParts(d: Declaration)
    ensures DeclarationText(d) == "" <==> d.Empty?
    ensures d.Property? ==> var t := DeclarationText(d);
      |t| == |d.name| + 1 + |d.value| && t[..|d.name|] == d.name && t[|d.name|] == ':' && t[|d.name| + 1..] == d.value
  {
  }

  /** The texts of several declarations. */
  function Texts(ds: seq<Declaration>): (r: seq<string>)
    ensures |r| == |ds|
  {
    if ds == [] then [] else Texts(ds[..|ds| - 1]) + [DeclarationText(ds[|ds| - 1])]
  }

  /** The declarations that are not `Empty`, in order (the `filter` in `write_to`). */
  function NonEmpty(ds: seq<Declaration>): (r: seq<Declaration>)
    ensures |r| <= |ds|
    ensures forall i :: 0 <= i < |r| ==> r[i].Property?
  {
    if ds == [] then []
    else if ds[0].Empty? then NonEmpty(ds[1..])
    else [ds[0]] + NonEmpty(ds[1..])
  }

  /** Filtering keeps a list without `Empty` entries as it is. */
  lemma {:induction false} NonEmptyKeepsProperties(ds: seq<Declaration>)
    requires forall i :: 0 <= i < |ds| ==> ds[i].Property?
    ensures NonEmpty(ds) == ds
  {
    if ds != [] {
      NonEmptyKeepsProperties(ds[1..]);
    }
  }

  /** Filtering leaves nothing exactly when every entry is `Empty`. */
  lemma {:induction false} NonEmptyNothing(ds: seq<Declaration>)
    ensures NonEmpty(ds) == [] <==> forall i :: 0 <= i < |ds| ==> ds[i].Empty?
  {
    if ds != [] {
      NonEmptyNothing(ds[1..]);
      assert forall i :: 1 <= i < |ds| ==> ds[i] == ds[1..][i - 1];
    }
  }

  /** Filtering drops something whenever an entry is `Empty`. */
  lemma {:induction false} NonEmptyShrinks(ds: seq<Declaration>, k: nat)
    requires k < |ds| && ds[k].Empty?
    ensures |NonEmpty(ds)| < |ds|
  {
    if k > 0 {
      NonEmptyShrinks(ds[1..], k - 1);
    }
  }

  /**
    The first `n` filtered declarations, each followed by `;` (the loop of
    `write_to`): nothing for `n == 0`, otherwise text ending in `;`.
  */
  function Terminated(ne: seq<Declaration>, n: nat): (r: string)
    requires n <= |ne|
    ensures |r| >= n
    ensures n > 0 ==> r[|r| - 1] == ';'
  {
    if n == 0 then "" else Terminated(ne, n - 1) + DeclarationText(ne[n - 1]) + ";"
  }

  /**
    `Writable for DeclarationList`, as written: when some declaration is not
    empty, write the first `declarations.len() - 1` of the filtered list, each
    followed by `;`, and then the last declaration of the UNFILTERED list.
  */
  function ListText(ds: seq<Declaration>): string
  {
    var ne := NonEmpty(ds);
    if |ne| > 0 then Terminated(ne, Min(|ds| - 1, |ne|)) + DeclarationText(ds[|ds| - 1])
    else ""
  }

  /** The smaller of two counts, as `take(n)` on an iterator of length `m` yields `Min(n, m)` items. */
  function Min(a: nat, b: nat): (r: nat)
    ensures r <= a && r <= b && (r == a || r == b)
  {
    if a < b then a else b
  }

  /** The loop's output is the joined texts plus one trailing `;`. */
  lemma {:induction false} TerminatedJoin(ne: seq<Declaration>, n: nat)
    requires 1 <= n <= |ne|
    ensures Terminated(ne, n) == Text.Join(Texts(ne[..n]), ";") + ";"
  {
    if n == 1 {
      assert Texts(ne[..1]) == [DeclarationText(ne[0])];
    } else {
      TerminatedJoin(ne, n - 1);
      assert ne[..n][..n - 1] == ne[..n - 1];
      Text.JoinAppend(Texts(ne[..n - 1]), [DeclarationText(ne[n - 1])], ";");
    }
  }

  /** With no `Empty` entries, the declarations are joined by `;` with no trailing `;`. */
  lemma ListTextWithoutEmpty(ds: seq<Declaration>)
    requires |ds| > 0
    requires forall i :: 0 <= i < |ds| ==> ds[i].Property?
    ensures ListText(ds) == Text.Join(Texts(ds), ";")
  {
    NonEmptyKeepsProperties(ds);
    var n := |ds| - 1;
    if n == 0 {
      assert Texts(ds) == [DeclarationText(ds[0])];
    } else {
      TerminatedJoin(ds, n);
      Text.JoinAppend(Texts(ds[..n]), [DeclarationText(ds[n])], ";");
    }
  }

  /** A list writes nothing exactly when it is empty or holds only `Empty` entries. */
  lemma ListTextAllEmpty(ds: seq<Declaration>)
    ensures ListText(ds) == "" <==> forall i :: 0 <= i < |ds| ==> ds[i].Empty?
  {
    NonEmptyNothing(ds);
    if NonEmpty(ds) != [] && |ds| == 1 {
      assert NonEmpty(ds) == [ds[0]];
      DeclarationTextParts(ds[0]);
    }
  }

  /**
    With an `Empty` entry present, every non-empty declaration is written
    followed by `;`, and then the last declaration of the list again (or
    nothing, when the last one is `Empty`).
  */
  lemma ListTextWithEmpty(ds: seq<Declaration>, k: nat)
    requires k < |ds| && ds[k].Empty?
    requires exists i :: 0 <= i < |ds| && ds[i].Property?
    ensures ListText(ds) == Text.Join(Texts(NonEmpty(ds)), ";") + ";" + DeclarationText(ds[|ds| - 1])
  {
    var ne := NonEmpty(ds);
    NonEmptyShrinks(ds, k);
    NonEmptyNothing(ds);
    TerminatedJoin(ne, |ne|);
    assert ne[..|ne|] == ne;
  }

  /** `[a:1, Empty, b:2]` writes `a:1;b:2;b:2`. */
  lemma EmptyInTheMiddleRepeatsTheLast()
    ensures ListText([Property("a", "1"), Empty, Property("b", "2")]) == "a:1;b:2;b:2"
  {
    var ds := [Property("a", "1"), Empty, Property("b", "2")];
    assert ds[..2][..1] == [Property("a", "1")];
    assert NonEmpty(ds[..1]) == [Property("a", "1")];
    assert NonEmpty(ds) == [Property("a", "1"), Property("b", "2")];
    var ne := [Property("a", "1"), Property("b", "2")];
    assert DeclarationText(ne[0]) == "a:1" && DeclarationText(ne[1]) == "b:2";
    assert Terminated(ne, 1) == "a:1;";
    assert Terminated(ne, 2) == "a:1;b:2;";
  }

  /** `[a:1, b:2, Empty]` writes `a:1;b:2;`. */
  lemma EmptyAtTheEndLeavesASemicolon()
    ensures ListText([Property("a", "1"), Property("b", "2"), Empty]) == "a:1;b:2;"
  {
    var ds := [Property("a", "1"), Property("b", "2"), Empty];
    assert ds[..2][..1] == [Property("a", "1")];
    assert NonEmpty(ds[..1]) == [Property("a", "1")];
    assert NonEmpty(ds) == [Property("a", "1"), Property("b", "2")];
    var ne := [Property("a", "1"), Property("b", "2")];
    assert DeclarationText(ne[0]) == "a:1" && DeclarationText(ne[1]) == "b:2";
    assert Terminated(ne, 1) == "a:1;";
    assert Terminated(ne, 2) == "a:1;b:2;";
  }

  /** `Writable for Declaration`, written piece by piece. */
  method WriteDeclaration(w: Io.Writer, d: Declaration)
    modifies w
    ensures w.written == old(w.written) + DeclarationText(d)
  {
    match d
    case Empty =>
    case Property(name, value) =>
      w.Write(name);
      w.Write(":");
      w.Write(value);
  }

  /** The `for` loop of `write_to`: the first `n` filtered declarations, each followed by `;`. */
  method WriteTerminated(w: Io.Writer, nonEmpty: seq<Declaration>, n: nat)
    requires n <= |nonEmpty|
    requires forall i :: 0 <= i < |nonEmpty| ==> nonEmpty[i].Property?
    modifies w
    ensures w.written == old(w.written) + Terminated(nonEmpty, n)
  {
    for i := 0 to n
      invariant w.written == old(w.written) + Terminated(nonEmpty, i)
    {
      var declaration := nonEmpty[i];
      if IsEmpty(declaration) {
        continue;
      }
      WriteDeclaration(w, declaration);
      w.Write(";");
    }
  }

  /** The body of `write_to` for `DeclarationList`: filter, loop over a prefix of the filtered list, then the unfiltered last. */
  method WriteDeclarations(w: Io.Writer, ds: seq<Declaration>)
    modifies w
    ensures w.written == old(w.written) + ListText(ds)
  {
    var nonEmpty := NonEmpty(ds);
    if |nonEmpty| > 0 {
      var take := Min(|ds| - 1, |nonEmpty|);
      var last := ds[|ds| - 1];
      ghost var start := w.written;
      WriteTerminated(w, nonEmpty, take);
      WriteDeclaration(w, last);
      assert w.written == start + Terminated(nonEmpty, take) + DeclarationText(last);
      assert ListText(ds) == Terminated(nonEmpty, take) + DeclarationText(last);
    } else {
      assert ListText(ds) == "";
    }
  }

  /** `DeclarationList`: the declarations of a `style` attribute, in order. */
  class DeclarationList {
    var declarations: seq<Declaration>

    /** `DeclarationList::default()`. */
    constructor ()
      ensures declarations == []
    {
      declarations := [];
    }

    /** `push_property`: one property appended at the end, earlier declarations untouched. */
    method PushProperty(name: string, value: string)
      modifies this
      ensures declarations == old(declarations) + [Property(name, value)]
    {
      declarations := declarations + [Property(name, value)];
    }

    /** `Writable::write_to`: writes `ListText` of the declarations. */
    method WriteTo(w: Io.Writer, settings: Io.WriteSettings)
      modifies w
      ensures w.written == old(w.written) + ListText(declarations)
    {
      WriteDeclarations(w, declarations);
    }
  }
}
