/** Exception values built from a lens error: make_exn_lns_error and the
    lines it appends after the message. */
module Exceptions {
  import opened Wrappers
  import opened Values
  import opened Collaborators
  import Decimal

  /** exn_printf_line: appends one line to an exception value. */
  function ExnPrintfLine(v: Value, line: string): (r: Value)
    requires v.VExn?
    ensures r.VExn? && r.info == v.info && r.exn.message == v.exn.message
    ensures r.exn.lines == v.exn.lines + [line]
  {
    VExn(v.info, Exn(v.exn.message, v.exn.lines + [line]))
  }

  function LensLine(location: string): string {
    "Lens: " + location
  }

  const PosLinePrefix := "Error encountered here ("
  const PosLineSuffix := " characters into string)"

  function PosLine(pos: nat): string {
    PosLinePrefix + Decimal.Render(pos) + PosLineSuffix
  }

  /** What printf's %s writes for a NULL path, as glibc renders it. */
  const NullPath := "(null)"

  function PathLine(path: Option<string>): string {
    "Error encountered at path " + match path case Some(p) => p case None => NullPath
  }

  predicate IsLensLine(line: string) {
    |line| >= 6 && line[..6] == "Lens: "
  }

  /** The offset a position line reports, read back from its text. */
  function PosLineOffset(line: string): Option<nat> {
    var lo, hi := |PosLinePrefix|, |line| - |PosLineSuffix|;
    if lo <= hi && line[..lo] == PosLinePrefix && line[hi..] == PosLineSuffix
       && Decimal.AllDigits(line[lo..hi])
    then Some(Decimal.Parse(line[lo..hi]))
    else None
  }

  /** The position line reports exactly the offset it was built from. */
  lemma PosLineOffsetOfPosLine(pos: nat)
    ensures PosLineOffset(PosLine(pos)) == Some(pos)
  {
    var line, digits := PosLine(pos), Decimal.Render(pos);
    var lo, hi := |PosLinePrefix|, |line| - |PosLineSuffix|;
    assert line[..lo] == PosLinePrefix;
    assert line[hi..] == PosLineSuffix;
    assert line[lo..hi] == digits;
    Decimal.ParseRender(pos);
  }

  /** A position line is never a path line, and neither is a lens line. */
  lemma ErrorLinesDistinct(pos: nat, path: Option<string>, location: string)
    ensures PosLine(pos) != PathLine(path)
    ensures !IsLensLine(PosLine(pos)) && !IsLensLine(PathLine(path))
    ensures IsLensLine(LensLine(location))
  {
    assert PosLine(pos)[18] == 'h';
    assert PathLine(path)[18] == 'a';
    assert PosLine(pos)[0] == 'E' && PathLine(path)[0] == 'E';
    assert LensLine(location)[..6] == "Lens: ";
  }

  /** The snippet format_pos renders for a position, if it renders one. */
  function Snippet(err: LnsError, text: string, env: Externals): Option<string>
    requires err.pos >= 0
  {
    env.formatPos(text, err.pos)
  }

  /** The lines make_exn_lns_error appends after the message: the lens line
      when the error names a lens, then either the position line (followed by
      the snippet when format_pos renders one) or the path line. */
  function LnsErrorLines(err: LnsError, text: string, env: Externals): (r: seq<string>)
    ensures var k := if err.lens.Some? then 1 else 0;
      && |r| == k + (if err.pos >= 0 && Snippet(err, text, env).Some? then 2 else 1)
      && (err.lens.Some? ==> r[0] == LensLine(env.formatInfo(err.lens.value.info)))
      && (err.pos >= 0 ==> r[k] == PosLine(err.pos))
      && (err.pos < 0 ==> r[k] == PathLine(err.path))
      && (|r| == k + 2 ==> r[k + 1] == Snippet(err, text, env).value)
    ensures err.lens.Some? <==> IsLensLine(r[0])
  {
    var lensLines := if err.lens.Some? then [LensLine(env.formatInfo(err.lens.value.info))] else [];
    var placeLines :=
      if err.pos >= 0 then
        [PosLine(err.pos)] + match Snippet(err, text, env) case Some(s) => [s] case None => []
      else
        [PathLine(err.path)];
    ErrorLinesDistinct(if err.pos >= 0 then err.pos else 0, err.path, "");
    lensLines + placeLines
  }

  /** make_exn_lns_error: an exception carrying the error's message, with
      the lens, position and path lines appended one at a time. */
  method MakeExnLnsError(info: Info, err: LnsError, text: string, env: Externals) returns (v: Value)
    ensures v == VExn(info, Exn(err.message, LnsErrorLines(err, text, env)))
  {
    v := MakeExn(info, err.message);
    if err.lens.Some? {
      v := ExnPrintfLine(v, LensLine(env.formatInfo(err.lens.value.info)));
    }
    if err.pos >= 0 {
      var pos := env.formatPos(text, err.pos);
      v := ExnPrintfLine(v, PosLine(err.pos));
      if pos.Some? {
        v := ExnPrintfLine(v, pos.value);
      }
    } else {
      v := ExnPrintfLine(v, PathLine(err.path));
    }
  }
}
