/**
 * Candle files as bytes: UTF-8 well-formedness (section 4 of RFC 3629), and the lines of an LF-terminated file. A line
 * feed never occurs inside a multi-byte sequence, so a file is well-formed exactly when each of its lines is.
 */
module CandleBytes {
  type byte = x: int | 0 <= x < 256

  const LF: byte := 0x0a
  const CR: byte := 0x0d

  predicate IsTail(b: byte) {
    0x80 <= b <= 0xbf
  }

  // The second byte a lead byte allows.
  predicate SecondHolds(lead: byte, second: byte) {
    if lead == 0xe0 then 0xa0 <= second <= 0xbf
    else if lead == 0xed then 0x80 <= second <= 0x9f
    else if lead == 0xf0 then 0x90 <= second <= 0xbf
    else if lead == 0xf4 then 0x80 <= second <= 0x8f
    else IsTail(second)
  }

  // The length a lead byte announces; none for a byte that cannot lead.
  function Announced(lead: byte): nat {
    if lead < 0x80 then 1 else if 0xc2 <= lead <= 0xdf then 2 else if 0xe0 <= lead <= 0xef then 3
    else if 0xf0 <= lead <= 0xf4 then 4 else 0
  }

  // The length of the first encoded character, or none if it is malformed or cut short.
  function FirstLength(s: seq<byte>): (n: nat)
    ensures n <= |s|
  {
    if s == [] then 0
    else
      var n := Announced(s[0]);
      if n == 0 || |s| < n then 0
      else if n >= 2 && !SecondHolds(s[0], s[1]) then 0
      else if n >= 3 && !IsTail(s[2]) then 0
      else if n >= 4 && !IsTail(s[3]) then 0
      else n
  }

  predicate Utf8(s: seq<byte>) {
    s == [] || (FirstLength(s) > 0 && Utf8(s[FirstLength(s)..]))
  }

  lemma FirstStopsAtLf(a: seq<byte>, b: seq<byte>)
    requires a != []
    ensures FirstLength(a + [LF] + b) == FirstLength(a)
  {
    var s := a + [LF] + b;
    assert s[0] == a[0] && s[|a|] == LF;
    assert forall i :: 0 <= i < |a| ==> s[i] == a[i];
  }

  lemma {:induction false} Utf8SplitsAtLf(a: seq<byte>, b: seq<byte>)
    ensures Utf8(a + [LF] + b) <==> Utf8(a) && Utf8(b)
  {
    var s := a + [LF] + b;
    if a == [] {
      assert s[0] == LF && s[1..] == b;
    } else {
      FirstStopsAtLf(a, b);
      var n := FirstLength(a);
      if n > 0 {
        assert s[n..] == a[n..] + [LF] + b;
        Utf8SplitsAtLf(a[n..], b);
      }
    }
  }

  // ----- lines

  // The complete lines of a file, and what follows its last line feed.
  function Lines(raw: seq<byte>): seq<seq<byte>> {
    if raw == [] then []
    else
      var init := raw[..|raw| - 1];
      if raw[|raw| - 1] == LF then Lines(init) + [Rest(init)] else Lines(init)
  }

  function Rest(raw: seq<byte>): seq<byte> {
    if raw == [] || raw[|raw| - 1] == LF then [] else Rest(raw[..|raw| - 1]) + [raw[|raw| - 1]]
  }

  function Terminated(lines: seq<seq<byte>>): seq<byte> {
    if lines == [] then [] else Terminated(lines[..|lines| - 1]) + lines[|lines| - 1] + [LF]
  }

  lemma OneByteMore(raw: seq<byte>, b: byte)
    ensures Lines(raw + [b]) == if b == LF then Lines(raw) + [Rest(raw)] else Lines(raw)
    ensures Rest(raw + [b]) == if b == LF then [] else Rest(raw) + [b]
  {
    assert (raw + [b])[..|raw|] == raw;
  }

  // The lines and the rest are the file, and hold no line feed of their own.
  lemma {:induction false} LinesMakeTheFile(raw: seq<byte>)
    ensures Terminated(Lines(raw)) + Rest(raw) == raw
    ensures LF !in Rest(raw) && forall line :: line in Lines(raw) ==> LF !in line
  {
    if raw != [] {
      var init, b := raw[..|raw| - 1], raw[|raw| - 1];
      assert raw == init + [b];
      LinesMakeTheFile(init);
      if b == LF {
        var lines := Lines(init) + [Rest(init)];
        assert lines[..|lines| - 1] == Lines(init);
        assert Terminated(lines) == Terminated(Lines(init)) + Rest(init) + [LF];
      } else {
        assert Terminated(Lines(init)) + (Rest(init) + [b]) == Terminated(Lines(init)) + Rest(init) + [b];
      }
    }
  }

  lemma {:induction false} TerminatedAppends(lines: seq<seq<byte>>, line: seq<byte>)
    ensures Terminated(lines + [line]) == Terminated(lines) + line + [LF]
  {
    assert (lines + [line])[..|lines|] == lines;
  }

  ghost predicate AllUtf8(lines: seq<seq<byte>>) {
    forall line :: line in lines ==> Utf8(line)
  }

  // A file is well-formed exactly when its lines and its unfinished last line are.
  lemma {:induction false} Utf8IsPerLine(raw: seq<byte>)
    ensures Utf8(raw) <==> AllUtf8(Lines(raw)) && Utf8(Rest(raw))
  {
    LinesMakeTheFile(raw);
    Utf8OfTerminated(Lines(raw), Rest(raw));
  }

  lemma {:induction false} Utf8OfTerminated(lines: seq<seq<byte>>, rest: seq<byte>)
    ensures Utf8(Terminated(lines) + rest) <==> AllUtf8(lines) && Utf8(rest)
  {
    if lines == [] {
      assert Terminated(lines) + rest == rest;
    } else {
      var init, last := lines[..|lines| - 1], lines[|lines| - 1];
      assert lines == init + [last];
      assert Terminated(lines) + rest == (Terminated(init) + last) + [LF] + rest;
      Utf8SplitsAtLf(Terminated(init) + last, rest);
      Utf8OfTerminated(init, last);
    }
  }

  // A carriage return is in the file exactly when it is in a line or in the rest.
  lemma {:induction false} CrIsPerLine(lines: seq<seq<byte>>, rest: seq<byte>)
    ensures CR in Terminated(lines) + rest <==> (exists line :: line in lines && CR in line) || CR in rest
  {
    if lines == [] {
      assert Terminated(lines) + rest == rest;
    } else {
      var init, last := lines[..|lines| - 1], lines[|lines| - 1];
      assert lines == init + [last];
      assert Terminated(lines) + rest == (Terminated(init) + last) + ([LF] + rest);
      CrIsPerLine(init, last);
      assert forall line :: line in lines <==> line in init || line == last;
    }
  }

  predicate StartsWithBom(s: seq<byte>) {
    |s| >= 3 && s[0] == 0xef && s[1] == 0xbb && s[2] == 0xbf
  }

  // The file starts with a byte order mark exactly when its first line does.
  lemma {:induction false} BomIsInTheFirstLine(lines: seq<seq<byte>>)
    requires lines != []
    ensures StartsWithBom(Terminated(lines)) <==> StartsWithBom(lines[0])
  {
    FirstLinePrefix(lines);
    var raw, line := Terminated(lines), lines[0];
    assert forall i :: 0 <= i < |line| ==> raw[i] == line[i];
    assert raw[|line|] == LF;
  }

  lemma {:induction false} FirstLinePrefix(lines: seq<seq<byte>>)
    requires lines != []
    ensures |Terminated(lines)| > |lines[0]| && Terminated(lines)[..|lines[0]|] == lines[0]
    ensures Terminated(lines)[|lines[0]|] == LF
  {
    if |lines| == 1 {
      assert Terminated(lines[..0]) == [];
      assert Terminated(lines) == lines[0] + [LF];
    } else {
      var init := lines[..|lines| - 1];
      FirstLinePrefix(init);
      assert Terminated(lines) == Terminated(init) + (lines[|lines| - 1] + [LF]);
    }
  }
}
