/**
  Output plumbing (src/io.rs): write settings, the output sink, and the
  `AttributeBundle` implementations that every single attribute, optional
  attribute and vector of attributes gets for free.

  The sink is an append-only buffer of characters: write errors and partial
  writes are not modelled. Rust's `Attribute` trait becomes a parameter: the
  generic writers take the text that `write_attribute` produces for one
  attribute as a function.
*/
module Io {
  import opened Wrappers
  import Text

  /** Settings threaded through every write call. */
  datatype WriteSettings = WriteSettings(precision: nat)

  /** `WriteSettings::default()`. */
  function DefaultSettings(): (s: WriteSettings)
    ensures s.precision == 4
  {
    WriteSettings(4)
  }

  /** A `std::io::Write` sink that only ever appends. */
  class Writer {
    var written: string

    constructor ()
      ensures written == []
    {
      written := [];
    }

    method Write(bytes: string)
      modifies this
      ensures written == old(written) + bytes
    {
      written := written + bytes;
    }
  }

  /** What `write_to` or `write_attribute` writes for a value of type `T`. */
  type Render<-T> = (T, WriteSettings) -> string

  /**
    `Writable::write_to_string`: run `write_to` into a fresh in-memory cursor
    and hand back everything it wrote.
  */
  method WriteToString<T>(x: T, settings: WriteSettings, writeTo: Render<T>) returns (s: string)
    ensures s == writeTo(x, settings)
  {
    var cursor := new Writer();
    cursor.Write(writeTo(x, settings));
    s := cursor.written;
  }

  /** `AttributeBundle for A`: the attribute itself, and it always counts as written. */
  function SingleBundle<A>(a: A, settings: WriteSettings, attr: Render<A>): (r: (string, bool))
    ensures r.1
    ensures r.0 == attr(a, settings)
  {
    (attr(a, settings), true)
  }

  /** `AttributeBundle for Option<A>`: nothing for `None`, the attribute for `Some`. */
  function OptionBundle<A>(o: Option<A>, settings: WriteSettings, attr: Render<A>): (r: (string, bool))
    ensures r.1 <==> o.Some?
    ensures o.None? ==> r.0 == ""
    ensures o.Some? ==> r.0 == attr(o.value, settings)
  {
    match o
    case None => ("", false)
    case Some(a) => (attr(a, settings), true)
  }

  /** The texts of the attributes of `v`, one per attribute. */
  function Rendered<A>(v: seq<A>, settings: WriteSettings, attr: Render<A>): (r: seq<string>)
    ensures |r| == |v|
    ensures forall i :: 0 <= i < |v| ==> r[i] == attr(v[i], settings)
  {
    seq(|v|, i requires 0 <= i < |v| => attr(v[i], settings))
  }

  /**
    `AttributeBundle for Vec<A>`, attribute by attribute as its loop does:
    the attributes' texts run together with no separator, and the flag is
    set as soon as one attribute was written.
  */
  function VecBundle<A>(v: seq<A>, settings: WriteSettings, attr: Render<A>): (r: (string, bool))
    ensures r.0 == Text.Join(Rendered(v, settings, attr), "")
    ensures r.1 <==> |v| > 0
  {
    if v == [] then ("", false)
    else
      var front := v[..|v| - 1];
      var r := VecBundle(front, settings, attr);
      var last := attr(v[|v| - 1], settings);
      if |front| == 0 then
        assert Rendered(v, settings, attr) == [last];
        (r.0 + last, true)
      else
        assert Rendered(v, settings, attr) == Rendered(front, settings, attr) + [last];
        Text.JoinAppend(Rendered(front, settings, attr), [last], "");
        (r.0 + last, true)
  }

  /** `write_attributes` for a single attribute. */
  method WriteSingleBundle<A>(w: Writer, a: A, settings: WriteSettings, attr: Render<A>) returns (wrote: bool)
    modifies w
    ensures w.written == old(w.written) + SingleBundle(a, settings, attr).0
    ensures wrote == SingleBundle(a, settings, attr).1
  {
    w.Write(attr(a, settings));
    wrote := true;
  }

  /** `write_attributes` for an optional attribute. */
  method WriteOptionBundle<A>(w: Writer, o: Option<A>, settings: WriteSettings, attr: Render<A>) returns (wrote: bool)
    modifies w
    ensures w.written == old(w.written) + OptionBundle(o, settings, attr).0
    ensures wrote == OptionBundle(o, settings, attr).1
  {
    match o {
      case Some(a) =>
        w.Write(attr(a, settings));
        wrote := true;
      case None =>
        wrote := false;
    }
  }

  /** `write_attributes` for a vector of attributes: its `for` loop. */
  method WriteVecBundle<A>(w: Writer, v: seq<A>, settings: WriteSettings, attr: Render<A>) returns (any: bool)
    modifies w
    ensures w.written == old(w.written) + VecBundle(v, settings, attr).0
    ensures any == VecBundle(v, settings, attr).1
  {
    any := false;
    for i := 0 to |v|
      invariant w.written == old(w.written) + VecBundle(v[..i], settings, attr).0
      invariant any == VecBundle(v[..i], settings, attr).1
    {
      assert v[..i + 1][..i] == v[..i];
      w.Write(attr(v[i], settings));
      any := true;
    }
    assert v[..|v|] == v;
  }
}
