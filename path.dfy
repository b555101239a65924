/**
  SVG path data (src/path.rs): the ten path commands, their argument counts
  and letters, path segments and the text `write_to` produces for them.
*/
module Path {
  import opened Math
  import Io
  import Text

  /** The path commands of SVG 1.1 section 8.3. */
  datatype Command =
    | Move | Line | Horizontal | Vertical | Cubic
    | CubicSmooth | Quadratic | QuadraticSmooth | Elliptical | Close

  /** `Command::argument_count`: only `Close` takes none, and the elliptical arc takes the most. */
  function ArgumentCount(c: Command): (r: nat)
    ensures r == 0 <==> c == Close
    ensures r <= 7 && (r == 7 <==> c == Elliptical)
  {
    match c
    case Move => 2
    case Line => 2
    case Horizontal => 1
    case Vertical => 1
    case Cubic => 6
    case CubicSmooth => 4
    case Quadratic => 4
    case QuadraticSmooth => 2
    case Elliptical => 7
    case Close => 0
  }

  /** `Command::absolute`: the letter of the absolute form. */
  function Absolute(c: Command): (r: char)
    ensures c != Close ==> 'A' <= r <= 'Z'
    ensures c == Close ==> r == 'z'
  {
    match c
    case Move => 'M'
    case Line => 'L'
    case Horizontal => 'H'
    case Vertical => 'V'
    case Cubic => 'C'
    case CubicSmooth => 'S'
    case Quadratic => 'Q'
    case QuadraticSmooth => 'T'
    case Elliptical => 'A'
    case Close => 'z'
  }

  /** `Command::relative`: the letter of the relative form. */
  function Relative(c: Command): (r: char)
    ensures 'a' <= r <= 'z'
  {
    match c
    case Move => 'm'
    case Line => 'l'
    case Horizontal => 'h'
    case Vertical => 'v'
    case Cubic => 'c'
    case CubicSmooth => 's'
    case Quadratic => 'q'
    case QuadraticSmooth => 't'
    case Elliptical => 'a'
    case Close => 'z'
  }

  /**
    Each letter names one command: the absolute letters are pairwise distinct,
    so are the relative ones, and an absolute letter is a relative one only
    for `Close`, which writes `z` either way.
  */
  lemma LettersIdentifyCommands(c: Command, e: Command)
    ensures Absolute(c) == Absolute(e) ==> c == e
    ensures Relative(c) == Relative(e) ==> c == e
    ensures Absolute(c) == Relative(e) <==> c == Close && e == Close
  {
  }

  /** The relative letter is the lower-case absolute letter, except for `Close`. */
  lemma RelativeIsLowerCase(c: Command)
    ensures c != Close ==> 'A' <= Absolute(c) <= 'Z' && Relative(c) as int == Absolute(c) as int + 32
    ensures c == Close ==> Absolute(c) == Relative(c) == 'z'
  {
  }

  /**
    `CommandData`: a command with its fixed-size argument array. The array's
    length, fixed by the variant in Rust, is the subset-type constraint here.
  */
  datatype CommandDataRaw = CommandDataRaw(command: Command, args: seq<Number>)
  type CommandData = d: CommandDataRaw | |d.args| == ArgumentCount(d.command)
    witness CommandDataRaw(Close, [])

  /** `CommandData::command`. */
  function CommandOf(d: CommandData): Command
  {
    d.command
  }

  /** `CommandData::args`: the arguments, exactly as many as the command takes. */
  function Args(d: CommandData): (r: seq<Number>)
    ensures |r| == ArgumentCount(CommandOf(d))
  {
    d.args
  }

  /** `CommandData::len`: the argument count of the command, which is the length of `args`. */
  function Len(d: CommandData): (r: nat)
    ensures r == |Args(d)|
  {
    ArgumentCount(CommandOf(d))
  }

  /** `PathSegment`. */
  datatype PathSegment = PathSegment(relative: bool, data: CommandData)

  /**
    The command letter a segment starts with: lower case exactly for a
    relative segment, except for `Close`, whose letter is `z` either way.
  */
  function Letter(s: PathSegment): (r: char)
    ensures CommandOf(s.data) != Close ==> ('a' <= r <= 'z' <==> s.relative)
    ensures CommandOf(s.data) == Close ==> r == 'z'
  {
    if s.relative then Relative(CommandOf(s.data)) else Absolute(CommandOf(s.data))
  }

  /** Every argument formatted at the precision of the settings. */
  function FormattedArgs(args: seq<Number>, settings: Io.WriteSettings, fmt: Formatter): (r: seq<string>)
    ensures |r| == |args|
  {
    if args == [] then []
    else FormattedArgs(args[..|args| - 1], settings, fmt) + [fmt(args[|args| - 1], settings.precision)]
  }

  /** The `j`-th formatted argument is the `j`-th argument formatted. */
  lemma {:induction false} FormattedArgsAt(args: seq<Number>, settings: Io.WriteSettings, fmt: Formatter, j: nat)
    requires j < |args|
    ensures FormattedArgs(args, settings, fmt)[j] == fmt(args[j], settings.precision)
  {
    if j < |args| - 1 {
      FormattedArgsAt(args[..|args| - 1], settings, fmt, j);
    }
  }

  /**
    `Writable for PathSegment`: the command letter, with no separator, then
    the arguments formatted at the settings' precision and separated by one
    space. `Close` writes its letter only.
  */
  function SegmentText(s: PathSegment, settings: Io.WriteSettings, fmt: Formatter): (r: string)
    ensures |r| >= 1 && r[0] == Letter(s)
    ensures CommandOf(s.data) == Close ==> r == [Letter(s)]
  {
    [Letter(s)] + Text.Join(FormattedArgs(Args(s.data), settings, fmt), " ")
  }

  /** No formatted number contains a space (true of Rust's float formatting). */
  ghost predicate SpaceFree(fmt: Formatter)
  {
    forall n: Number, p: nat :: ' ' !in fmt(n, p)
  }

  /**
    Reading a segment back: after its letter, the text splits at spaces into
    exactly `Len` fields, the arguments formatted in order.
  */
  lemma SegmentFields(s: PathSegment, settings: Io.WriteSettings, fmt: Formatter)
    requires SpaceFree(fmt)
    requires CommandOf(s.data) != Close
    ensures var fields := Text.Split(SegmentText(s, settings, fmt)[1..], ' ');
      |fields| == Len(s.data) &&
      forall j :: 0 <= j < |fields| ==> fields[j] == fmt(Args(s.data)[j], settings.precision)
  {
    var parts := FormattedArgs(Args(s.data), settings, fmt);
    forall k | 0 <= k < |parts|
      ensures ' ' !in parts[k]
    {
      FormattedArgsAt(Args(s.data), settings, fmt, k);
      var n, p := Args(s.data)[k], settings.precision;
      assert ' ' !in fmt(n, p);
    }
    Text.SplitJoin(parts, ' ');
    assert SegmentText(s, settings, fmt)[1..] == Text.Join(parts, [' ']);
    forall j | 0 <= j < |parts|
      ensures parts[j] == fmt(Args(s.data)[j], settings.precision)
    {
      FormattedArgsAt(Args(s.data), settings, fmt, j);
    }
  }

  /** `PathSegment::write_to`: the letter, then one formatted write of the arguments. */
  method WriteSegment(w: Io.Writer, s: PathSegment, settings: Io.WriteSettings, fmt: Formatter)
    modifies w
    ensures w.written == old(w.written) + SegmentText(s, settings, fmt)
  {
    w.Write([Letter(s)]);
    w.Write(Text.Join(FormattedArgs(Args(s.data), settings, fmt), " "));
  }

  /** `PathData`. */
  datatype PathData = PathData(segments: seq<PathSegment>)

  /** `Writable for PathData`: the segments' texts, one after another with no separator. */
  function PathText(segments: seq<PathSegment>, settings: Io.WriteSettings, fmt: Formatter): string
  {
    if segments == [] then ""
    else PathText(segments[..|segments| - 1], settings, fmt) + SegmentText(segments[|segments| - 1], settings, fmt)
  }

  /**
    Every segment writes at least its letter, so a path's text is at least
    one character per segment and starts with the first segment's letter.
  */
  lemma {:induction false} PathTextStartsWithFirstLetter(segments: seq<PathSegment>, settings: Io.WriteSettings, fmt: Formatter)
    ensures |PathText(segments, settings, fmt)| >= |segments|
    ensures segments != [] ==> PathText(segments, settings, fmt)[0] == Letter(segments[0])
  {
    if segments != [] {
      var front := segments[..|segments| - 1];
      PathTextStartsWithFirstLetter(front, settings, fmt);
      if front != [] {
        assert front[0] == segments[0];
      }
    }
  }

  /** Writing two runs of segments writes the first run's text and then the second's. */
  lemma {:induction false} PathTextAppend(a: seq<PathSegment>, b: seq<PathSegment>, settings: Io.WriteSettings, fmt: Formatter)
    ensures PathText(a + b, settings, fmt) == PathText(a, settings, fmt) + PathText(b, settings, fmt)
  {
    if b != [] {
      assert (a + b)[..|a + b| - 1] == a + b[..|b| - 1];
      PathTextAppend(a, b[..|b| - 1], settings, fmt);
    } else {
      assert a + b == a;
    }
  }

  /** Segment `i` starts, with its own letter, right after the text of the segments before it. */
  lemma SegmentStartsWithLetter(segments: seq<PathSegment>, i: nat, settings: Io.WriteSettings, fmt: Formatter)
    requires i < |segments|
    ensures var at := |PathText(segments[..i], settings, fmt)|;
      at < |PathText(segments, settings, fmt)| && PathText(segments, settings, fmt)[at] == Letter(segments[i])
  {
    assert segments == segments[..i] + [segments[i]] + segments[i + 1..];
    PathTextAppend(segments[..i] + [segments[i]], segments[i + 1..], settings, fmt);
    assert (segments[..i] + [segments[i]])[..i] == segments[..i];
  }

  /** One more segment adds its own text at the end. */
  lemma PathTextStep(segments: seq<PathSegment>, i: nat, settings: Io.WriteSettings, fmt: Formatter)
    requires i < |segments|
    ensures PathText(segments[..i + 1], settings, fmt) == PathText(segments[..i], settings, fmt) + SegmentText(segments[i], settings, fmt)
  {
    assert segments[..i + 1][..i] == segments[..i];
  }

  /** `PathData::write_to`: a loop writing every segment. */
  method WritePathData(w: Io.Writer, p: PathData, settings: Io.WriteSettings, fmt: Formatter)
    modifies w
    ensures w.written == old(w.written) + PathText(p.segments, settings, fmt)
  {
    for i := 0 to |p.segments|
      invariant w.written == old(w.written) + PathText(p.segments[..i], settings, fmt)
    {
      PathTextStep(p.segments, i, settings, fmt);
      WriteSegment(w, p.segments[i], settings, fmt);
    }
    assert p.segments[..|p.segments|] == p.segments;
  }
}
