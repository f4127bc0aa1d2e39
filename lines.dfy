/**
  How `ReadBoatsFromFile` cuts the file into lines: `fgets(line, 256, file)`
  returns the characters up to and including the next newline, but never
  more than 255 of them, so a longer line comes back in pieces, each read
  as a record of its own. The file `WriteBoatsToFile` writes is the
  concatenation of its lines.
 */
module FileLines {

  /** `sizeof(line)` less the terminating NUL. */
  const LineRoom: nat := 255

  /** How many characters one `fgets` call takes from the front of `text`. */
  function LineRun(text: string, room: nat): (k: nat)
    ensures k <= room && k <= |text|
    ensures text != [] && room > 0 ==> k >= 1
    ensures forall i :: 0 <= i < k - 1 ==> text[i] != '\n'
  {
    if text == [] || room == 0 then 0
    else if text[0] == '\n' then 1
    else 1 + LineRun(text[1..], room - 1)
  }

  /** The successive results of `fgets` on a file holding `text`, until it returns NULL. */
  function Lines(text: string): (lines: seq<string>)
    ensures forall k :: 0 <= k < |lines| ==> 1 <= |lines[k]| <= LineRoom
    decreases |text|
  {
    if text == [] then []
    else
      var k := LineRun(text, LineRoom);
      [text[..k]] + Lines(text[k..])
  }

  /** The text of a file written line by line. */
  function FileText(lines: seq<string>): string
  {
    if lines == [] then [] else lines[0] + FileText(lines[1..])
  }

  /** A line `fgets` returns whole: it fits the buffer and its only newline ends it. */
  predicate IsLine(l: string)
  {
    && 1 <= |l| <= LineRoom
    && l[|l| - 1] == '\n'
    && forall i :: 0 <= i < |l| - 1 ==> l[i] != '\n'
  }

  /** `fgets` stops right after the newline of a whole line. */
  lemma {:induction false} LineRunOfLine(l: string, rest: string, room: nat)
    requires 1 <= |l| <= room
    requires l[|l| - 1] == '\n'
    requires forall i :: 0 <= i < |l| - 1 ==> l[i] != '\n'
    ensures LineRun(l + rest, room) == |l|
  {
    if |l| > 1 {
      assert (l + rest)[1..] == l[1..] + rest;
      LineRunOfLine(l[1..], rest, room - 1);
    }
  }

  /** Reading back a file written as whole lines gives exactly those lines. */
  lemma {:induction false} LinesOfFileText(lines: seq<string>)
    requires forall k :: 0 <= k < |lines| ==> IsLine(lines[k])
    ensures Lines(FileText(lines)) == lines
  {
    if lines != [] {
      var l, rest := lines[0], FileText(lines[1..]);
      LineRunOfLine(l, rest, LineRoom);
      assert (l + rest)[..|l|] == l && (l + rest)[|l|..] == rest;
      LinesOfFileText(lines[1..]);
    }
  }

  /**
    A line of more than 255 characters before its newline is cut: the
    first read returns its first 255 characters and the next read goes on
    from there.
   */
  lemma LongLineIsCut(text: string)
    requires |text| > LineRoom
    requires forall i :: 0 <= i < LineRoom ==> text[i] != '\n'
    ensures Lines(text)[0] == text[..LineRoom]
    ensures Lines(text)[1..] == Lines(text[LineRoom..])
  {
    LineRunOfPlain(text, LineRoom);
  }

  /** Without a newline in reach, `fgets` fills the buffer. */
  lemma {:induction false} LineRunOfPlain(text: string, room: nat)
    requires |text| >= room
    requires forall i :: 0 <= i < room ==> text[i] != '\n'
    ensures LineRun(text, room) == room
  {
    if room > 0 {
      LineRunOfPlain(text[1..], room - 1);
    }
  }

  /** Writing one more line adds it to the end of the file. */
  lemma {:induction false} FileTextAppend(lines: seq<string>, l: string)
    ensures FileText(lines + [l]) == FileText(lines) + l
  {
    if lines == [] {
      assert [] + [l] == [l];
      assert FileText([l]) == l + FileText([]);
    } else {
      assert (lines + [l])[1..] == lines[1..] + [l];
      FileTextAppend(lines[1..], l);
    }
  }
}
