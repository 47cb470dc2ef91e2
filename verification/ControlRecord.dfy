/**
 The parser of Debian source control records, on characters: an optional cleartext signature wrapper,
 fields with continuation lines, and the inventory of payload checksums.
 */
module ControlRecord {
  import opened Common

  /** The fixed texts of the format: the armor markers of a signed message and the names of the fields that are read. */
  datatype Format = Format(opening: string, closing: string, source: string, version: string, checksums: string)

  const ARMOR := "-----BEGIN PGP "

  const DEBIAN := Format(ARMOR + "SIGNED MESSAGE-----", ARMOR + "SIGNATURE-----", "Source", "Version",
    "Checksums-Sha256")

  datatype Payload = Payload(sha256: string, size: nat)

  type Payloads = map<string, Payload>

  // ----- Text -----

  /** The characters that end a line for `splitlines`. */
  predicate IsBreak(c: char) {
    '\U{0A}' <= c <= '\U{0D}' || '\U{1C}' <= c <= '\U{1E}' || c == '\U{85}' || c == '\U{2028}' || c == '\U{2029}'
  }

  predicate IsSpace(c: char) {
    '\U{09}' <= c <= '\U{0D}' || '\U{1C}' <= c <= ' ' || c == '\U{85}' || c == '\U{A0}' || c == '\U{1680}' ||
    '\U{2000}' <= c <= '\U{200A}' || c == '\U{2028}' || c == '\U{2029}' || c == '\U{202F}' || c == '\U{205F}' ||
      c == '\U{3000}'
  }

  predicate OneLine(line: string) {
    forall i | 0 <= i < |line| :: !IsBreak(line[i])
  }

  predicate NoLineFeed(line: string) {
    forall i | 0 <= i < |line| :: line[i] != '\n'
  }

  function LineEnd(text: string): (end: nat)
    ensures end <= |text| && forall i | 0 <= i < end :: !IsBreak(text[i])
    ensures end < |text| ==> IsBreak(text[end])
  {
    if text == "" || IsBreak(text[0]) then 0 else 1 + LineEnd(text[1..])
  }

  /** Where the line after the first begins; CR LF is one break. */
  function NextLine(text: string): (next: nat)
    requires text != ""
    ensures 0 < next <= |text|
  {
    var end := LineEnd(text);
    if end == |text| then end
    else if text[end] == '\r' && end + 1 < |text| && text[end + 1] == '\n' then end + 2
    else end + 1
  }

  /** The lines of a text; a final line break does not begin another line. */
  function SplitLines(text: string): seq<string>
    decreases |text|
  {
    if text == "" then [] else [text[..LineEnd(text)]] + SplitLines(text[NextLine(text)..])
  }

  /** Every line with a line feed after it. */
  function Terminated(lines: seq<string>): string {
    if lines == [] then "" else lines[0] + "\n" + Terminated(lines[1..])
  }

  /** The lines with a line feed between them. */
  function Joined(lines: seq<string>): string {
    if lines == [] then "" else if |lines| == 1 then lines[0] else lines[0] + "\n" + Joined(lines[1..])
  }

  predicate Matches(text: string, part: string, at: int) {
    0 <= at && at + |part| <= |text| && text[at..at + |part|] == part
  }

  /** The first occurrence of a part. */
  function FindFrom(text: string, part: string, from: nat): (found: Option<nat>)
    requires from <= |text|
    ensures found.Some? ==> from <= found.value && Matches(text, part, found.value)
    ensures found.Some? ==> forall j | from <= j < found.value :: !Matches(text, part, j)
    ensures found.None? ==> forall j | from <= j :: !Matches(text, part, j)
    decreases |text| - from
  {
    if Matches(text, part, from) then Some(from)
    else if from == |text| then None
    else FindFrom(text, part, from + 1)
  }

  function Find(text: string, part: string): Option<nat> {
    FindFrom(text, part, 0)
  }

  function StripLeft(s: string): (stripped: string)
    ensures |stripped| <= |s| && (stripped != "" ==> !IsSpace(stripped[0]))
    ensures s == "" || !IsSpace(s[0]) ==> stripped == s
  {
    if s != "" && IsSpace(s[0]) then StripLeft(s[1..]) else s
  }

  function StripRight(s: string): (stripped: string)
    ensures s == "" || !IsSpace(s[|s| - 1]) ==> stripped == s
  {
    if s != "" && IsSpace(s[|s| - 1]) then StripRight(s[..|s| - 1]) else s
  }

  function Strip(s: string): string {
    StripRight(StripLeft(s))
  }

  function WordEnd(s: string): (end: nat)
    ensures end <= |s| && (forall i | 0 <= i < end :: !IsSpace(s[i])) && (end < |s| ==> IsSpace(s[end]))
  {
    if s == "" || IsSpace(s[0]) then 0 else 1 + WordEnd(s[1..])
  }

  /** The maximal runs of characters that are not white space. */
  function SplitWords(s: string): seq<string>
    decreases |s|
  {
    var t := StripLeft(s);
    if t == "" then [] else [t[..WordEnd(t)]] + SplitWords(t[WordEnd(t)..])
  }

  predicate IsAlphanumeric(c: char) {
    'A' <= c <= 'Z' || 'a' <= c <= 'z' || '0' <= c <= '9'
  }

  predicate IsFileName(s: string) {
    s != "" && IsAlphanumeric(s[0]) && forall i | 0 <= i < |s| ::
      IsAlphanumeric(s[i]) || s[i] in {'_', '.', '+', '~', '-'}
  }

  // ----- The record -----

  datatype Fields = Fields(values: map<string, string>, current: Option<string>)

  /** One line of the record: a blank one, a continuation, or a new field. */
  function AddLine(fields: Fields, line: string): Result<Fields, string> {
    if line == "" then Ok(fields)
    else if IsSpace(line[0]) then
      if fields.current.None? || fields.current.value !in fields.values then Err("continuation")
      else
        var key := fields.current.value;
        Ok(fields.(values := fields.values[key := fields.values[key] + "\n" + Strip(line)]))
    else
      var colon := Find(line, ":");
      if colon.None? then Err("field")
      else
        var key := line[..colon.value];
        if key in fields.values then Err("duplicate")
        else Ok(Fields(fields.values[key := Strip(line[colon.value + 1..])], Some(key)))
  }

  function ReadFields(lines: seq<string>): Result<Fields, string> {
    if lines == [] then Ok(Fields(map[], None))
    else
      var front := ReadFields(lines[..|lines| - 1]);
      if front.Err? then front else AddLine(front.value, lines[|lines| - 1])
  }

  function AddPayload(payloads: Payloads, line: string): Result<Payloads, string> {
    if line == "" then Ok(payloads)
    else
      var parts := SplitWords(line);
      if |parts| != 3 || !IsSha256(parts[0]) || !IsDigits(parts[1]) then Err("record")
      else if !IsFileName(parts[2]) || parts[2] in payloads then Err("filename")
      else Ok(payloads[parts[2] := Payload(parts[0], Number(parts[1]))])
  }

  function ReadPayloads(lines: seq<string>): Result<Payloads, string> {
    if lines == [] then Ok(map[])
    else
      var front := ReadPayloads(lines[..|lines| - 1]);
      if front.Err? then front else AddPayload(front.value, lines[|lines| - 1])
  }

  function Unescape(line: string): string {
    if Matches(line, "- ", 0) then line[2..] else line
  }

  function UnescapeAll(lines: seq<string>): (unescaped: seq<string>)
    ensures |unescaped| == |lines| && forall i | 0 <= i < |lines| :: unescaped[i] == Unescape(lines[i])
  {
    seq(|lines|, i requires 0 <= i < |lines| => Unescape(lines[i]))
  }

  /** The record inside a signed message, or the text itself. */
  function Unwrap(format: Format, text: string): Result<string, string> {
    if !Matches(text, format.opening, 0) then Ok(text)
    else
      var blank := Find(text, "\n\n");
      if blank.None? then Err("signed")
      else
        var body := text[blank.value + 2..];
        var end := Find(body, format.closing);
        Ok(Joined(UnescapeAll(SplitLines(if end.None? then body else body[..end.value]))))
  }

  function Inventory(format: Format, fields: map<string, string>, package: string, version: string)
    : Result<Payloads, string>
  {
    if !(format.source in fields && fields[format.source] == package &&
         format.version in fields && fields[format.version] == version)
    then Err("identity")
    else
      var payloads := ReadPayloads(SplitLines(if format.checksums in fields then fields[format.checksums] else ""));
      if payloads.Ok? && payloads.value == map[] then Err("empty") else payloads
  }

  function ParsedRecord(format: Format, lines: seq<string>, package: string, version: string)
    : Result<Payloads, string>
  {
    var fields := ReadFields(lines);
    if fields.Err? then Err(fields.error) else Inventory(format, fields.value.values, package, version)
  }

  /** What a record, bare or signed, says. */
  function Parsed(format: Format, text: string, package: string, version: string): Result<Payloads, string> {
    var record := Unwrap(format, text);
    if record.Err? then Err(record.error) else ParsedRecord(format, SplitLines(record.value), package, version)
  }

  /** The parser's statements. */
  method ParseDsc(format: Format, text: string, package: string, version: string)
    returns (result: Result<Payloads, string>)
    ensures result == Parsed(format, text, package, version)
  {
    var record := Unwrap(format, text);
    if record.Err? {
      return Err(record.error);
    }
    var lines := SplitLines(record.value);
    var fields := Fields(map[], None);
    for i := 0 to |lines|
      invariant ReadFields(lines[..i]) == Ok(fields)
    {
      assert lines[..i + 1][..i] == lines[..i];
      var added := AddLine(fields, lines[i]);
      if added.Err? {
        ReadFieldsFails(lines, i + 1);
        return Err(added.error);
      }
      fields := added.value;
    }
    assert lines[..|lines|] == lines;
    if !(format.source in fields.values && fields.values[format.source] == package &&
         format.version in fields.values && fields.values[format.version] == version) {
      return Err("identity");
    }
    var payloads: Payloads := map[];
    var checksums := SplitLines(if format.checksums in fields.values then fields.values[format.checksums] else "");
    for i := 0 to |checksums|
      invariant ReadPayloads(checksums[..i]) == Ok(payloads)
    {
      assert checksums[..i + 1][..i] == checksums[..i];
      var added := AddPayload(payloads, checksums[i]);
      if added.Err? {
        ReadPayloadsFails(checksums, i + 1);
        return Err(added.error);
      }
      payloads := added.value;
    }
    assert checksums[..|checksums|] == checksums;
    return if payloads == map[] then Err("empty") else Ok(payloads);
  }

  lemma {:induction false} ReadFieldsFails(lines: seq<string>, n: nat)
    requires n <= |lines| && ReadFields(lines[..n]).Err?
    ensures ReadFields(lines) == ReadFields(lines[..n])
    decreases |lines|
  {
    if n < |lines| {
      var front := lines[..|lines| - 1];
      assert front[..n] == lines[..n];
      ReadFieldsFails(front, n);
    } else {
      assert lines[..n] == lines;
    }
  }

  lemma {:induction false} ReadPayloadsFails(lines: seq<string>, n: nat)
    requires n <= |lines| && ReadPayloads(lines[..n]).Err?
    ensures ReadPayloads(lines) == ReadPayloads(lines[..n])
    decreases |lines|
  {
    if n < |lines| {
      var front := lines[..|lines| - 1];
      assert front[..n] == lines[..n];
      ReadPayloadsFails(front, n);
    } else {
      assert lines[..n] == lines;
    }
  }

  // ----- Lines and their text -----

  lemma {:induction false} LineEndAt(line: string, rest: string)
    requires OneLine(line)
    ensures LineEnd(line + "\n" + rest) == |line|
    ensures LineEnd(line) == |line|
  {
    if line != "" {
      assert (line + "\n" + rest)[1..] == line[1..] + "\n" + rest;
      LineEndAt(line[1..], rest);
    }
  }

  lemma SplitFirst(line: string, rest: string)
    requires OneLine(line)
    ensures SplitLines(line + "\n" + rest) == [line] + SplitLines(rest)
    ensures line != "" ==> SplitLines(line) == [line]
  {
    LineEndAt(line, rest);
    var text := line + "\n" + rest;
    assert text[..|line|] == line && text[|line| + 1..] == rest;
    assert line[..|line|] == line && line[|line|..] == "";
  }

  lemma {:induction false} SplitTerminated(lines: seq<string>)
    requires forall i | 0 <= i < |lines| :: OneLine(lines[i])
    ensures SplitLines(Terminated(lines)) == lines
  {
    if lines != [] {
      SplitFirst(lines[0], Terminated(lines[1..]));
      SplitTerminated(lines[1..]);
    }
  }

  function WithoutBlankEnd(lines: seq<string>): seq<string> {
    if lines != [] && lines[|lines| - 1] == "" then lines[..|lines| - 1] else lines
  }

  lemma WithoutBlankEndOfRest(lines: seq<string>)
    requires |lines| > 1
    ensures WithoutBlankEnd(lines) == [lines[0]] + WithoutBlankEnd(lines[1..])
  {
    var rest := lines[1..];
    assert lines[|lines| - 1] == rest[|rest| - 1];
    assert lines[..|lines| - 1] == [lines[0]] + rest[..|rest| - 1];
  }

  /** Joining and splitting again loses at most an empty last line. */
  lemma {:induction false} SplitJoined(lines: seq<string>)
    requires forall i | 0 <= i < |lines| :: OneLine(lines[i])
    ensures SplitLines(Joined(lines)) == WithoutBlankEnd(lines)
  {
    if |lines| > 1 {
      var rest := Joined(lines[1..]);
      SplitJoined(lines[1..]);
      SplitFirst(lines[0], rest);
      WithoutBlankEndOfRest(lines);
    } else if |lines| == 1 {
      SplitFirst(lines[0], "");
      assert lines[..0] == [] && lines == [lines[0]];
    }
  }

  /** An empty line changes nothing of what a record says. */
  lemma BlankEndIsIgnored(lines: seq<string>)
    ensures ReadFields(WithoutBlankEnd(lines)) == ReadFields(lines)
  {
  }

  // ----- The signed wrapper -----

  function Escape(line: string): string {
    if line != "" && line[0] == '-' then "- " + line else line
  }

  function EscapeAll(lines: seq<string>): (escaped: seq<string>)
    ensures |escaped| == |lines| && forall i | 0 <= i < |lines| :: escaped[i] == Escape(lines[i])
  {
    seq(|lines|, i requires 0 <= i < |lines| => Escape(lines[i]))
  }

  /** A cleartext signed message: armor headers, a blank line, the dash-escaped lines, and the signature. */
  function Wrapped(format: Format, headers: seq<string>, lines: seq<string>, signature: string): string {
    Terminated([format.opening] + headers) + "\n" + (Terminated(EscapeAll(lines)) + (format.closing + signature))
  }

  predicate Contains(line: string, part: string) {
    exists j | 0 <= j <= |line| :: Matches(line, part, j)
  }

  /** The escape brings no signature marker into a line. */
  lemma EscapeAddsNoMarker(line: string, marker: string)
    requires |marker| >= 2 && marker[0] == '-' && marker[1] == '-' && !Contains(line, marker)
    ensures !Contains(Escape(line), marker)
  {
    var escaped := Escape(line);
    forall j | 0 <= j <= |escaped|
      ensures !Matches(escaped, marker, j)
    {
      if escaped != line && Matches(escaped, marker, j) {
        assert escaped[j] == marker[0] && escaped[j + 1] == marker[1];
        assert escaped[j..j + |marker|] == line[j - 2..j - 2 + |marker|];
        assert Matches(line, marker, j - 2);
      }
    }
  }

  lemma MatchesShift(text: string, k: nat, part: string, j: nat)
    requires k <= j && k <= |text|
    ensures Matches(text, part, j) <==> Matches(text[k..], part, j - k)
  {
    if j + |part| <= |text| {
      assert text[k..][j - k..j - k + |part|] == text[j..j + |part|];
    }
  }

  /** A part that holds no line feed and is in no line does not start before the end of the lines. */
  lemma {:induction false} NoMatchInLines(lines: seq<string>, rest: string, part: string, j: nat)
    requires part != "" && (forall i | 0 <= i < |part| :: part[i] != '\n')
    requires forall i | 0 <= i < |lines| :: !Contains(lines[i], part)
    requires j < |Terminated(lines)|
    ensures !Matches(Terminated(lines) + rest, part, j)
  {
    var line, tail := lines[0], Terminated(lines[1..]);
    var text := Terminated(lines) + rest;
    assert text == line + ("\n" + (tail + rest));
    if j > |line| {
      assert text[|line| + 1..] == tail + rest;
      MatchesShift(text, |line| + 1, part, j);
      NoMatchInLines(lines[1..], rest, part, j - |line| - 1);
    } else if j + |part| <= |line| {
      assert text[j..j + |part|] == line[j..j + |part|];
      assert !Matches(line, part, j);
    } else if j + |part| <= |text| {
      assert text[j..j + |part|][|line| - j] == '\n';
    }
  }

  lemma FoundAt(text: string, part: string, at: nat)
    requires Matches(text, part, at) && forall j | 0 <= j < at :: !Matches(text, part, j)
    ensures Find(text, part) == Some(at)
  {
  }

  /** No two line feeds meet before the end of a text of nonempty lines. */
  lemma {:induction false} NoBlankInLines(lines: seq<string>, rest: string, j: nat)
    requires forall i | 0 <= i < |lines| :: lines[i] != "" && NoLineFeed(lines[i])
    requires j + 1 < |Terminated(lines)|
    ensures !Matches(Terminated(lines) + rest, "\n\n", j)
  {
    var line, tail := lines[0], Terminated(lines[1..]);
    var text := Terminated(lines) + rest;
    assert text == line + ("\n" + (tail + rest));
    if j > |line| {
      assert text[|line| + 1..] == tail + rest;
      MatchesShift(text, |line| + 1, "\n\n", j);
      NoBlankInLines(lines[1..], rest, j - |line| - 1);
    } else if j < |line| {
      assert text[j..j + 2][0] == line[j] != '\n' == "\n\n"[0];
    } else {
      assert text[j..j + 2][1] == tail[0] == lines[1][0] != '\n' == "\n\n"[1];
    }
  }

  lemma BlankLineFound(lines: seq<string>, rest: string)
    requires lines != [] && forall i | 0 <= i < |lines| :: lines[i] != "" && NoLineFeed(lines[i])
    ensures |Terminated(lines)| > 0
    ensures Find(Terminated(lines) + "\n" + rest, "\n\n") == Some(|Terminated(lines)| - 1)
  {
    var head := Terminated(lines);
    var text := head + "\n" + rest;
    assert text == head + ("\n" + rest);
    EndsInBreak(lines);
    assert text[|head| - 1..|head| + 1] == "\n\n";
    forall j | 0 <= j < |head| - 1
      ensures !Matches(text, "\n\n", j)
    {
      NoBlankInLines(lines, "\n" + rest, j);
    }
    FoundAt(text, "\n\n", |head| - 1);
  }

  lemma {:induction false} EndsInBreak(lines: seq<string>)
    requires lines != []
    ensures var text := Terminated(lines); text != "" && text[|text| - 1] == '\n'
  {
    if |lines| > 1 {
      EndsInBreak(lines[1..]);
    }
  }

  predicate IsMarker(marker: string) {
    |marker| >= 2 && marker[0] == '-' && marker[1] == '-' && OneLine(marker)
  }

  predicate IsKey(key: string) {
    key != "" && !IsSpace(key[0]) && key[0] != '-' && OneLine(key) && forall i | 0 <= i < |key| :: key[i] != ':'
  }

  /** What the proofs need of the fixed texts. */
  predicate ValidFormat(format: Format) {
    && IsMarker(format.opening) && IsMarker(format.closing)
    && IsKey(format.source) && IsKey(format.version) && IsKey(format.checksums)
    && format.source != format.version && format.source != format.checksums && format.version != format.checksums
  }

  lemma ClosingFound(lines: seq<string>, closing: string, rest: string)
    requires IsMarker(closing) && forall i | 0 <= i < |lines| :: !Contains(lines[i], closing)
    ensures var inside := Terminated(EscapeAll(lines));
      Find(inside + (closing + rest), closing) == Some(|inside|)
  {
    var inside := Terminated(EscapeAll(lines));
    var body := inside + (closing + rest);
    forall i | 0 <= i < |lines|
      ensures !Contains(EscapeAll(lines)[i], closing)
    {
      EscapeAddsNoMarker(lines[i], closing);
    }
    forall j | 0 <= j < |inside|
      ensures !Matches(body, closing, j)
    {
      NoMatchInLines(EscapeAll(lines), closing + rest, closing, j);
    }
    assert body[|inside|..|inside| + |closing|] == closing;
    FoundAt(body, closing, |inside|);
  }

  lemma OpeningFound(opening: string, headers: seq<string>, body: string)
    requires IsMarker(opening) && forall i | 0 <= i < |headers| :: headers[i] != "" && NoLineFeed(headers[i])
    ensures var head := Terminated([opening] + headers); var text := head + "\n" + body;
      head != "" && Matches(text, opening, 0) && Find(text, "\n\n") == Some(|head| - 1) && text[|head| + 1..] == body
  {
    var head := Terminated([opening] + headers);
    var text := head + "\n" + body;
    BlankLineFound([opening] + headers, body);
    assert ([opening] + headers)[0] == opening;
    assert text == opening + ("\n" + Terminated(([opening] + headers)[1..]) + "\n" + body);
    assert text[..|opening|] == opening;
  }

  // ----- What a signed message carries -----

  /**
   The lines that the parser makes of one line of a record: a line may hold other breaks than the line feed after it.
   */
  function Pieces(line: string): seq<string> {
    SplitLines(line + "\n")
  }

  /** The lines that the parser makes of a record. */
  function Given(lines: seq<string>): seq<string> {
    if lines == [] then [] else Pieces(lines[0]) + Given(lines[1..])
  }

  /** The pieces of one line after the trip through a signed message: the first is as it was, the others unescaped. */
  function Arrived(pieces: seq<string>): seq<string> {
    if pieces == [] then [] else [pieces[0]] + UnescapeAll(pieces[1..])
  }

  /** The lines of a record after the trip through a signed message. */
  function Received(lines: seq<string>): seq<string> {
    if lines == [] then [] else Arrived(Pieces(lines[0])) + Received(lines[1..])
  }

  /** No later piece of the line looks escaped. */
  predicate Intact(line: string) {
    forall i | 1 <= i < |Pieces(line)| :: !Matches(Pieces(line)[i], "- ", 0)
  }

  lemma {:induction false} LineEndKept(text: string, rest: string)
    requires text != "" && text[|text| - 1] == '\n'
    ensures LineEnd(text) < |text| && LineEnd(text + rest) == LineEnd(text)
  {
    if !IsBreak(text[0]) {
      assert (text + rest)[1..] == text[1..] + rest;
      LineEndKept(text[1..], rest);
    }
  }

  /** What follows a line feed does not change where the lines before it end. */
  lemma FirstLineKept(text: string, rest: string)
    requires text != "" && text[|text| - 1] == '\n'
    ensures LineEnd(text + rest) == LineEnd(text) && NextLine(text + rest) == NextLine(text)
    ensures (text + rest)[..LineEnd(text)] == text[..LineEnd(text)]
    ensures (text + rest)[NextLine(text)..] == text[NextLine(text)..] + rest
  {
    LineEndKept(text, rest);
  }

  /** Splitting works line feed by line feed. */
  lemma {:induction false} SplitAppends(text: string, rest: string)
    requires text == "" || text[|text| - 1] == '\n'
    ensures SplitLines(text + rest) == SplitLines(text) + SplitLines(rest)
    decreases |text|
  {
    if text == "" {
      assert text + rest == rest;
    } else {
      FirstLineKept(text, rest);
      var tail := text[NextLine(text)..];
      SplitAppends(tail, rest);
      Regrouped([text[..LineEnd(text)]], SplitLines(tail), SplitLines(rest));
    }
  }

  lemma {:induction false} SplitIntoGiven(lines: seq<string>)
    ensures SplitLines(Terminated(lines)) == Given(lines)
  {
    if lines != [] {
      SplitAppends(lines[0] + "\n", Terminated(lines[1..]));
      SplitIntoGiven(lines[1..]);
    }
  }

  lemma {:induction false} SplitGivesLines(text: string)
    ensures forall i | 0 <= i < |SplitLines(text)| :: OneLine(SplitLines(text)[i])
    decreases |text|
  {
    if text != "" {
      SplitGivesLines(text[NextLine(text)..]);
    }
  }

  lemma UnescapeKeepsOneLine(line: string)
    requires OneLine(line)
    ensures OneLine(Unescape(line))
  {
  }

  lemma {:induction false} ReceivedAreLines(lines: seq<string>)
    ensures forall i | 0 <= i < |Received(lines)| :: OneLine(Received(lines)[i])
    ensures |Received(lines)| == |Given(lines)|
  {
    if lines != [] {
      var pieces := Pieces(lines[0]);
      SplitGivesLines(lines[0] + "\n");
      forall i | 1 <= i < |pieces|
        ensures OneLine(Arrived(pieces)[i])
      {
        UnescapeKeepsOneLine(pieces[i]);
        assert Arrived(pieces)[i] == UnescapeAll(pieces[1..])[i - 1] == Unescape(pieces[i]);
      }
      ReceivedAreLines(lines[1..]);
    }
  }

  lemma SliceAfter(start: string, text: string, n: nat)
    requires n <= |text|
    ensures (start + text)[..|start| + n] == start + text[..n] && (start + text)[|start| + n..] == text[n..]
    ensures n < |text| ==> (start + text)[|start| + n] == text[n]
  {
  }

  lemma FirstLineLater(start: string, text: string)
    requires OneLine(start) && text != ""
    ensures LineEnd(start + text) == |start| + LineEnd(text) && NextLine(start + text) == |start| + NextLine(text)
  {
    var end := LineEnd(text);
    LineEndAfter(start, text);
    SliceAfter(start, text, end);
    if end + 1 < |text| {
      SliceAfter(start, text, end + 1);
    }
  }

  lemma SplitsInto(text: string, end: nat, next: nat, first: string, rest: string)
    requires text != "" && end == LineEnd(text) && next == NextLine(text)
    requires text[..end] == first && text[next..] == rest
    ensures SplitLines(text) == [first] + SplitLines(rest)
  {
  }

  lemma GrownSplit(start: string, text: string) returns (first: string, others: seq<string>)
    requires OneLine(start) && text != ""
    ensures SplitLines(text) == [first] + others && SplitLines(start + text) == [start + first] + others
  {
    var end, next := LineEnd(text), NextLine(text);
    FirstLineLater(start, text);
    SliceAfter(start, text, end);
    SliceAfter(start, text, next);
    first, others := text[..end], SplitLines(text[next..]);
    SplitsInto(text, end, next, first, text[next..]);
    SplitsInto(start + text, |start| + end, |start| + next, start + first, text[next..]);
  }

  /** A beginning without a break goes into the first line. */
  lemma FirstLineGrows(start: string, text: string)
    requires OneLine(start) && text != ""
    ensures SplitLines(text) != []
    ensures SplitLines(start + text) == [start + SplitLines(text)[0]] + SplitLines(text)[1..]
  {
    var first, others := GrownSplit(start, text);
    TailOf(first, others);
  }

  lemma TailOf(first: string, others: seq<string>)
    ensures ([first] + others)[1..] == others
  {
  }

  /** An escape goes into the first piece of a line. */
  lemma EscapedPieces(line: string)
    requires line != "" && line[0] == '-'
    ensures Pieces(line) != [] && Pieces(Escape(line)) == ["- " + Pieces(line)[0]] + Pieces(line)[1..]
  {
    assert Escape(line) + "\n" == "- " + (line + "\n");
    FirstLineGrows("- ", line + "\n");
  }

  lemma {:induction false} LineEndAfter(start: string, text: string)
    requires OneLine(start)
    ensures LineEnd(start + text) == |start| + LineEnd(text)
  {
    if start == "" {
      assert start + text == text;
    } else {
      assert (start + text)[1..] == start[1..] + text;
      LineEndAfter(start[1..], text);
    }
  }

  /** The first piece of a line that is not escaped does not look escaped. */
  lemma FirstPieceIsKept(line: string)
    ensures Pieces(line) != []
    ensures Escape(line) == line ==> Unescape(Pieces(line)[0]) == Pieces(line)[0]
  {
    var text := line + "\n";
    var first := text[..LineEnd(text)];
    assert Pieces(line)[0] == first;
    if Matches(first, "- ", 0) {
      assert first[..2] == "- ";
      assert line[0] == first[0];
    }
  }

  lemma EscapedPiecesArrive(pieces: seq<string>, escaped: seq<string>)
    requires pieces != []
    requires || (escaped == pieces && Unescape(pieces[0]) == pieces[0])
             || escaped == ["- " + pieces[0]] + pieces[1..]
    ensures UnescapeAll(escaped) == Arrived(pieces)
  {
    var first, others := pieces[0], pieces[1..];
    HeadAndTail(pieces);
    assert Unescape("- " + first) == first;
    UnescapeAppends(if escaped == pieces then [first] else ["- " + first], others);
  }

  lemma HeadAndTail(lines: seq<string>)
    requires lines != []
    ensures lines == [lines[0]] + lines[1..]
  {
  }

  /** A line is escaped as a whole and unescaped in pieces. */
  lemma PiecesArrive(line: string)
    ensures UnescapeAll(Pieces(Escape(line))) == Arrived(Pieces(line))
  {
    FirstPieceIsKept(line);
    if Escape(line) != line {
      EscapedPieces(line);
    }
    EscapedPiecesArrive(Pieces(line), Pieces(Escape(line)));
  }

  lemma UnescapeAppends(lines: seq<string>, more: seq<string>)
    ensures UnescapeAll(lines + more) == UnescapeAll(lines) + UnescapeAll(more)
  {
  }

  lemma {:induction false} LinesArrive(lines: seq<string>)
    ensures UnescapeAll(Given(EscapeAll(lines))) == Received(lines)
  {
    if lines != [] {
      assert EscapeAll(lines)[1..] == EscapeAll(lines[1..]);
      PiecesArrive(lines[0]);
      LinesArrive(lines[1..]);
      UnescapeAppends(Pieces(Escape(lines[0])), Given(EscapeAll(lines[1..])));
    }
  }

  lemma ArrivedIntact(pieces: seq<string>)
    ensures |Arrived(pieces)| == |pieces|
    ensures Arrived(pieces) == pieces <==> forall i | 1 <= i < |pieces| :: !Matches(pieces[i], "- ", 0)
  {
    if pieces != [] {
      var others := pieces[1..];
      assert pieces == [pieces[0]] + others;
      forall i | 1 <= i < |pieces|
        ensures Arrived(pieces)[i] == Unescape(pieces[i])
        ensures Unescape(pieces[i]) == pieces[i] <==> !Matches(pieces[i], "- ", 0)
      {
        assert Arrived(pieces)[i] == UnescapeAll(others)[i - 1] && others[i - 1] == pieces[i];
      }
    }
  }

  /** A line arrives as it was given exactly when no later piece of it looks escaped. */
  lemma PiecesArriveIntact(line: string)
    ensures |Arrived(Pieces(line))| == |Pieces(line)|
    ensures Arrived(Pieces(line)) == Pieces(line) <==> Intact(line)
  {
    ArrivedIntact(Pieces(line));
  }

  lemma AppendsAgree(a: seq<string>, b: seq<string>, c: seq<string>, d: seq<string>)
    requires |a| == |c| && |b| == |d|
    ensures a + b == c + d <==> a == c && b == d
  {
    assert a == (a + b)[..|a|] && b == (a + b)[|a|..];
    assert c == (c + d)[..|c|] && d == (c + d)[|c|..];
  }

  predicate AllIntact(lines: seq<string>) {
    lines == [] || (Intact(lines[0]) && AllIntact(lines[1..]))
  }

  lemma {:induction false} AllAreIntact(lines: seq<string>)
    ensures AllIntact(lines) <==> forall i | 0 <= i < |lines| :: Intact(lines[i])
  {
    if lines != [] {
      AllAreIntact(lines[1..]);
      HeadAndTail(lines);
    }
  }

  lemma {:induction false} ReceivedAsGiven(lines: seq<string>)
    ensures |Received(lines)| == |Given(lines)|
    ensures Received(lines) == Given(lines) <==> AllIntact(lines)
  {
    if lines != [] {
      PiecesArriveIntact(lines[0]);
      ReceivedAsGiven(lines[1..]);
      AppendsAgree(Arrived(Pieces(lines[0])), Received(lines[1..]), Pieces(lines[0]), Given(lines[1..]));
    }
  }

  /** Unwrapping a wrapped record gives the received lines, when no line contains the closing marker. */
  lemma UnwrapUndoesWrapping(format: Format, headers: seq<string>, lines: seq<string>, signature: string)
    requires ValidFormat(format)
    requires forall i | 0 <= i < |headers| :: headers[i] != "" && NoLineFeed(headers[i])
    requires forall i | 0 <= i < |lines| :: NoLineFeed(lines[i]) && !Contains(lines[i], format.closing)
    ensures Unwrap(format, Wrapped(format, headers, lines, signature)) == Ok(Joined(Received(lines)))
    ensures SplitLines(Joined(Received(lines))) == WithoutBlankEnd(Received(lines))
  {
    var inside := Terminated(EscapeAll(lines));
    var body := inside + (format.closing + signature);
    OpeningFound(format.opening, headers, body);
    ClosingFound(lines, format.closing, signature);
    assert body[..|inside|] == inside;
    SplitIntoGiven(EscapeAll(lines));
    LinesArrive(lines);
    ReceivedAreLines(lines);
    SplitJoined(Received(lines));
  }

  lemma MarkerByParts(start: string, end: string)
    requires |start| >= 2 && start[0] == '-' && start[1] == '-' && OneLine(start) && OneLine(end)
    ensures IsMarker(start + end)
  {
  }

  lemma ArmorIsOneLine()
    ensures OneLine(ARMOR)
  {
  }

  lemma OpeningIsMarker()
    ensures IsMarker(DEBIAN.opening)
  {
    ArmorIsOneLine();
    MarkerByParts(ARMOR, "SIGNED MESSAGE-----");
  }

  lemma ClosingIsMarker()
    ensures IsMarker(DEBIAN.closing)
  {
    ArmorIsOneLine();
    MarkerByParts(ARMOR, "SIGNATURE-----");
  }

  lemma SourceIsKey()
    ensures IsKey(DEBIAN.source)
  {
  }

  lemma VersionIsKey()
    ensures IsKey(DEBIAN.version)
  {
  }

  lemma ChecksumsIsKey()
    ensures IsKey(DEBIAN.checksums)
  {
  }

  /** Debian's markers and field names are as the proofs need them. */
  lemma DebianFormatIsValid()
    ensures ValidFormat(DEBIAN)
  {
    OpeningIsMarker();
    ClosingIsMarker();
    SourceIsKey();
    VersionIsKey();
    ChecksumsIsKey();
    assert DEBIAN.source[0] == 'S' && DEBIAN.version[0] == 'V' && DEBIAN.checksums[0] == 'C';
  }

  /** As many lines, and a blank one for every blank one. */
  predicate BlanksKept(before: seq<string>, after: seq<string>) {
    |before| == |after| && forall k | 0 <= k < |before| :: before[k] == "" ==> after[k] == ""
  }

  lemma BlanksArrive(pieces: seq<string>)
    ensures BlanksKept(pieces, Arrived(pieces))
  {
    forall k | 0 <= k < |pieces| && pieces[k] == ""
      ensures Arrived(pieces)[k] == ""
    {
      if k > 0 {
        assert Arrived(pieces)[k] == UnescapeAll(pieces[1..])[k - 1];
      }
    }
  }

  lemma BlanksKeptTogether(a: seq<string>, b: seq<string>, c: seq<string>, d: seq<string>)
    requires BlanksKept(a, c) && BlanksKept(b, d)
    ensures BlanksKept(a + b, c + d)
  {
  }

  lemma {:induction false} BlanksReceived(lines: seq<string>)
    ensures BlanksKept(Given(lines), Received(lines))
  {
    if lines != [] {
      var pieces, rest := Pieces(lines[0]), lines[1..];
      BlanksArrive(pieces);
      BlanksReceived(rest);
      BlanksKeptTogether(pieces, Given(rest), Arrived(pieces), Received(rest));
    }
  }

  /** A blank last line aside, the received lines are the given ones exactly when every line is intact. */
  lemma BlankEndsAgree(lines: seq<string>)
    ensures WithoutBlankEnd(Received(lines)) == WithoutBlankEnd(Given(lines)) <==>
            forall i | 0 <= i < |lines| :: Intact(lines[i])
  {
    ReceivedAsGiven(lines);
    AllAreIntact(lines);
    var received, given := Received(lines), Given(lines);
    if given != [] {
      BlanksReceived(lines);
      FrontAndLast(received);
      FrontAndLast(given);
    }
  }

  /**
   The parser reads the same lines from a record inside a signed message and from the bare record, but for a blank
   last line, exactly when no later piece of a line looks escaped. Lines end at line feeds and hold any other breaks.
   */
  lemma SignedLinesAreBareLines(format: Format, headers: seq<string>, lines: seq<string>, signature: string)
    requires ValidFormat(format)
    requires forall i | 0 <= i < |headers| :: headers[i] != "" && NoLineFeed(headers[i])
    requires forall i | 0 <= i < |lines| :: NoLineFeed(lines[i]) && !Contains(lines[i], format.closing)
    ensures var signed := Unwrap(format, Wrapped(format, headers, lines, signature));
      signed.Ok? &&
      (SplitLines(signed.value) == WithoutBlankEnd(SplitLines(Terminated(lines))) <==>
       forall i | 0 <= i < |lines| :: Intact(lines[i]))
  {
    UnwrapUndoesWrapping(format, headers, lines, signature);
    SplitIntoGiven(lines);
    BlankEndsAgree(lines);
  }

  /**
   Then a record gives the same answer bare and inside a signed message, refusals included, when it does not begin
   like a signed message and has no line with the signature marker.
   */
  lemma SignedParsesLikeBare(
    format: Format, headers: seq<string>, lines: seq<string>, signature: string, package: string, version: string)
    requires ValidFormat(format)
    requires forall i | 0 <= i < |headers| :: headers[i] != "" && NoLineFeed(headers[i])
    requires forall i | 0 <= i < |lines| :: NoLineFeed(lines[i]) && !Contains(lines[i], format.closing)
    requires forall i | 0 <= i < |lines| :: Intact(lines[i])
    requires !Matches(Terminated(lines), format.opening, 0)
    ensures Parsed(format, Wrapped(format, headers, lines, signature), package, version) ==
            Parsed(format, Terminated(lines), package, version)
  {
    SignedLinesAreBareLines(format, headers, lines, signature);
    BlankEndIsIgnored(SplitLines(Terminated(lines)));
  }

  /** A line without any other break is intact, and so is one that ends in CR LF. */
  lemma OneLineIsIntact(line: string)
    requires OneLine(line)
    ensures Intact(line) && Pieces(line) == [line]
    ensures Intact(line + "\r") && Pieces(line + "\r") == [line]
  {
    FirstLineGrows(line, "\n");
    FirstLineGrows(line, "\r\n");
    assert line + "\r" + "\n" == line + "\r\n";
    assert SplitLines("\n") == [""] && SplitLines("\r\n") == [""] by {
      assert "\n"[..0] == "" && "\n"[1..] == "" && "\r\n"[..0] == "" && "\r\n"[2..] == "";
    }
    assert line + "" == line;
  }

  /** A signed message with CR LF line ends is refused: it has no two line feeds in a row. */
  lemma CrLfMessageIsRefused(format: Format, text: string, package: string, version: string)
    requires Matches(text, format.opening, 0)
    requires forall i | 0 <= i < |text| && text[i] == '\n' :: i > 0 && text[i - 1] == '\r'
    ensures Parsed(format, text, package, version).Err?
  {
    forall at: nat
      ensures !Matches(text, "\n\n", at)
    {
      FeedBeforeFeed(text, at);
    }
  }

  lemma FeedBeforeFeed(text: string, at: nat)
    ensures Matches(text, "\n\n", at) ==> at + 1 < |text| && text[at + 1] == '\n' == text[at]
  {
    if at + 2 <= |text| {
      assert text[at..at + 2][0] == text[at] && text[at..at + 2][1] == text[at + 1];
    }
  }

  // ----- Rendering a record -----

  predicate Plain(s: string) {
    s != "" && forall i | 0 <= i < |s| :: !IsSpace(s[i])
  }

  function PayloadText(name: string, payload: Payload): string {
    payload.sha256 + " " + Decimal(payload.size) + " " + name
  }

  predicate ValidEntry(entry: (string, Payload)) {
    IsFileName(entry.0) && IsSha256(entry.1.sha256)
  }

  ghost predicate ValidEntries(entries: seq<(string, Payload)>) {
    (forall i | 0 <= i < |entries| :: ValidEntry(entries[i])) &&
    forall i, j | 0 <= i < j < |entries| :: entries[i].0 != entries[j].0
  }

  function MapOf(entries: seq<(string, Payload)>): Payloads {
    if entries == [] then map[]
    else MapOf(entries[..|entries| - 1])[entries[|entries| - 1].0 := entries[|entries| - 1].1]
  }

  function Texts(entries: seq<(string, Payload)>): (texts: seq<string>)
    ensures |texts| == |entries| && forall i | 0 <= i < |texts| :: texts[i] == PayloadText(entries[i].0, entries[i].1)
  {
    if entries == [] then []
    else Texts(entries[..|entries| - 1]) + [PayloadText(entries[|entries| - 1].0, entries[|entries| - 1].1)]
  }

  function Indented(texts: seq<string>): (lines: seq<string>)
    ensures |lines| == |texts| && forall i | 0 <= i < |lines| :: lines[i] == " " + texts[i]
  {
    if texts == [] then [] else Indented(texts[..|texts| - 1]) + [" " + texts[|texts| - 1]]
  }

  predicate Clean(text: string) {
    text != "" && OneLine(text) && !IsSpace(text[0]) && !IsSpace(text[|text| - 1])
  }

  lemma StripIndent(s: string)
    requires s != "" && !IsSpace(s[0]) && !IsSpace(s[|s| - 1])
    ensures Strip(" " + s) == s
  {
    assert (" " + s)[1..] == s;
  }

  lemma FieldAdded(fields: Fields, key: string, value: string)
    requires key != "" && !IsSpace(key[0]) && (forall i | 0 <= i < |key| :: key[i] != ':') && key !in fields.values
    ensures AddLine(fields, key + ":" + value) == Ok(Fields(fields.values[key := Strip(value)], Some(key)))
  {
    var line := key + ":" + value;
    forall j | 0 <= j < |key|
      ensures !Matches(line, ":", j)
    {
      assert line[j..j + 1][0] == key[j];
    }
    assert line[|key|..|key| + 1] == ":";
    FoundAt(line, ":", |key|);
    assert line[..|key|] == key && line[|key| + 1..] == value;
  }

  lemma ContinuationAdded(values: map<string, string>, key: string, folded: string, text: string)
    requires Clean(text)
    ensures AddLine(Fields(values[key := folded], Some(key)), " " + text) ==
            Ok(Fields(values[key := folded + "\n" + text], Some(key)))
  {
    StripIndent(text);
    assert values[key := folded][key := folded + "\n" + text] == values[key := folded + "\n" + text];
  }

  /** A folded value: every continuation on a line of its own. */
  function Folded(texts: seq<string>): string {
    if texts == [] then "" else Folded(texts[..|texts| - 1]) + "\n" + texts[|texts| - 1]
  }

  lemma FieldsAppend(lines: seq<string>, line: string, fields: Fields)
    requires ReadFields(lines) == Ok(fields)
    ensures ReadFields(lines + [line]) == AddLine(fields, line)
  {
    assert (lines + [line])[..|lines|] == lines;
  }

  lemma PayloadsAppend(lines: seq<string>, line: string, payloads: Payloads)
    requires ReadPayloads(lines) == Ok(payloads)
    ensures ReadPayloads(lines + [line]) == AddPayload(payloads, line)
  {
    assert (lines + [line])[..|lines|] == lines;
  }

  lemma {:induction false} ContinuationsAdded(
    lines: seq<string>, values: map<string, string>, key: string, texts: seq<string>)
    requires key in values && values[key] == "" && ReadFields(lines) == Ok(Fields(values, Some(key)))
    requires forall i | 0 <= i < |texts| :: Clean(texts[i])
    ensures ReadFields(lines + Indented(texts)) == Ok(Fields(values[key := Folded(texts)], Some(key)))
  {
    if texts == [] {
      assert lines + Indented(texts) == lines;
      assert values[key := ""] == values;
    } else {
      var front, last := texts[..|texts| - 1], texts[|texts| - 1];
      ContinuationsAdded(lines, values, key, front);
      ContinuationAdded(values, key, Folded(front), last);
      FieldsAppend(lines + Indented(front), " " + last, Fields(values[key := Folded(front)], Some(key)));
      assert lines + Indented(texts) == lines + Indented(front) + [" " + last];
    }
  }

  lemma {:induction false} JoinedAppend(lines: seq<string>, last: string)
    requires lines != []
    ensures Joined(lines + [last]) == Joined(lines) + "\n" + last
  {
    assert (lines + [last])[1..] == lines[1..] + [last];
    if |lines| > 1 {
      JoinedAppend(lines[1..], last);
    }
  }

  lemma {:induction false} FoldedIsJoined(texts: seq<string>)
    ensures Folded(texts) == Joined([""] + texts)
  {
    if texts != [] {
      var front, last := texts[..|texts| - 1], texts[|texts| - 1];
      FoldedIsJoined(front);
      JoinedAppend([""] + front, last);
      assert [""] + front + [last] == [""] + texts;
    }
  }

  lemma {:induction false} WordEndAt(word: string, rest: string)
    requires (forall i | 0 <= i < |word| :: !IsSpace(word[i])) && (rest == "" || IsSpace(rest[0]))
    ensures WordEnd(word + rest) == |word|
  {
    if word != "" {
      assert (word + rest)[1..] == word[1..] + rest;
      WordEndAt(word[1..], rest);
    } else {
      assert word + rest == rest;
    }
  }

  lemma FirstWord(word: string, rest: string)
    requires Plain(word) && (rest == "" || IsSpace(rest[0]))
    ensures SplitWords(word + rest) == [word] + SplitWords(rest)
  {
    WordEndAt(word, rest);
    assert (word + rest)[..|word|] == word && (word + rest)[|word|..] == rest;
  }

  lemma SkipSpace(s: string)
    ensures SplitWords(" " + s) == SplitWords(s)
  {
    assert (" " + s)[1..] == s;
  }

  lemma OneWord(a: string)
    requires Plain(a)
    ensures SplitWords(a) == [a]
  {
    FirstWord(a, "");
    assert a + "" == a;
  }

  lemma OneMoreWord(a: string, rest: string)
    requires Plain(a)
    ensures SplitWords(a + " " + rest) == [a] + SplitWords(rest)
  {
    assert a + " " + rest == a + (" " + rest);
    FirstWord(a, " " + rest);
    SkipSpace(rest);
  }

  lemma TwoWords(a: string, b: string)
    requires Plain(a) && Plain(b)
    ensures SplitWords(a + " " + b) == [a, b]
  {
    OneMoreWord(a, b);
    OneWord(b);
    assert [a] + [b] == [a, b];
  }

  lemma ThreeWords(a: string, b: string, c: string)
    requires Plain(a) && Plain(b) && Plain(c)
    ensures SplitWords(a + " " + b + " " + c) == [a, b, c]
  {
    TwoWords(b, c);
    OneMoreWord(a, b + " " + c);
    assert a + " " + b + " " + c == a + " " + (b + " " + c) by {
      Regrouped(a + " ", b, " ");
      Regrouped(a + " ", b + " ", c);
    }
  }

  lemma EntryIsPlain(entry: (string, Payload))
    requires ValidEntry(entry)
    ensures Plain(entry.0) && Plain(entry.1.sha256) && Plain(Decimal(entry.1.size)) && IsDigits(Decimal(entry.1.size))
  {
  }

  lemma TextIsClean(entry: (string, Payload))
    requires ValidEntry(entry)
    ensures Clean(PayloadText(entry.0, entry.1))
  {
    EntryIsPlain(entry);
    var a, b, c := entry.1.sha256, Decimal(entry.1.size), entry.0;
    var text := a + " " + b + " " + c;
    assert text[0] == a[0] && text[|text| - 1] == c[|c| - 1];
    forall i | 0 <= i < |text|
      ensures !IsBreak(text[i])
    {
      assert text[i] == ' ' || text[i] in a || text[i] in b || text[i] in c;
    }
  }

  lemma PayloadAdded(payloads: Payloads, entry: (string, Payload))
    requires ValidEntry(entry) && entry.0 !in payloads
    ensures AddPayload(payloads, PayloadText(entry.0, entry.1)) == Ok(payloads[entry.0 := entry.1])
  {
    EntryIsPlain(entry);
    ThreeWords(entry.1.sha256, Decimal(entry.1.size), entry.0);
    NumberOfDecimal(entry.1.size);
  }

  lemma {:induction false} NamesOf(entries: seq<(string, Payload)>)
    ensures forall name <- MapOf(entries) :: exists i | 0 <= i < |entries| :: entries[i].0 == name
  {
    if entries != [] {
      var front := entries[..|entries| - 1];
      NamesOf(front);
      assert forall i | 0 <= i < |front| :: front[i] == entries[i];
    }
  }

  lemma NewName(entries: seq<(string, Payload)>)
    requires ValidEntries(entries) && entries != []
    ensures ValidEntries(entries[..|entries| - 1]) && ValidEntry(entries[|entries| - 1])
    ensures entries[|entries| - 1].0 !in MapOf(entries[..|entries| - 1])
  {
    var front := entries[..|entries| - 1];
    NamesOf(front);
    assert forall i | 0 <= i < |front| :: front[i] == entries[i];
  }

  lemma {:induction false} PayloadsRead(entries: seq<(string, Payload)>)
    requires ValidEntries(entries)
    ensures ReadPayloads([""] + Texts(entries)) == Ok(MapOf(entries))
  {
    if entries == [] {
      PayloadsAppend([], "", map[]);
      assert [""] + Texts(entries) == [] + [""];
    } else {
      var front, last := entries[..|entries| - 1], entries[|entries| - 1];
      PayloadsRead(front);
      NewName(entries);
      PayloadAdded(MapOf(front), last);
      PayloadsAppend([""] + Texts(front), PayloadText(last.0, last.1), MapOf(front));
      assert [""] + Texts(entries) == [""] + Texts(front) + [PayloadText(last.0, last.1)];
    }
  }

  lemma FoldedSplits(entries: seq<(string, Payload)>)
    requires ValidEntries(entries) && entries != []
    ensures SplitLines(Folded(Texts(entries))) == [""] + Texts(entries)
  {
    FoldedIsJoined(Texts(entries));
    var lines := [""] + Texts(entries);
    forall i | 0 <= i < |lines|
      ensures OneLine(lines[i]) && (i > 0 ==> lines[i] != "")
    {
      if i > 0 {
        TextIsClean(entries[i - 1]);
      }
    }
    SplitJoined(lines);
  }

  function HeaderLines(format: Format, package: string, version: string): seq<string> {
    [format.source + ":" + (" " + package), format.version + ":" + (" " + version), format.checksums + ":" + ""]
  }

  /** The record of a package with its payloads. */
  function RecordLines(format: Format, package: string, version: string, entries: seq<(string, Payload)>): seq<string> {
    HeaderLines(format, package, version) + Indented(Texts(entries))
  }

  function FieldMap(format: Format, package: string, version: string, listing: string): map<string, string> {
    map[format.source := package, format.version := version, format.checksums := listing]
  }

  lemma FieldMapUpdate(format: Format, package: string, version: string, listing: string)
    ensures FieldMap(format, package, version, "")[format.checksums := listing] ==
      FieldMap(format, package, version, listing)
  {
  }

  lemma HeaderRead(format: Format, package: string, version: string)
    requires ValidFormat(format) && Plain(package) && Plain(version)
    ensures ReadFields(HeaderLines(format, package, version)) ==
            Ok(Fields(FieldMap(format, package, version, ""), Some(format.checksums)))
  {
    var a, b, c := format.source, format.version, format.checksums;
    var first, second, third := a + ":" + (" " + package), b + ":" + (" " + version), c + ":" + "";
    assert [first, second, third][..2] == [first, second] && [first, second][..1] == [first] && [first][..0] == [];
    FieldAdded(Fields(map[], None), a, " " + package);
    StripIndent(package);
    FieldAdded(Fields(map[a := package], Some(a)), b, " " + version);
    StripIndent(version);
    FieldAdded(Fields(map[a := package, b := version], Some(b)), c, "");
    assert ReadFields([first]) == Ok(Fields(map[a := package], Some(a)));
    assert ReadFields([first, second]) == Ok(Fields(map[a := package, b := version], Some(b)));
  }

  lemma RecordIsLines(format: Format, package: string, version: string, entries: seq<(string, Payload)>)
    requires ValidFormat(format) && Plain(package) && Plain(version) && ValidEntries(entries)
    ensures var lines := RecordLines(format, package, version, entries);
      (forall i | 0 <= i < |lines| :: OneLine(lines[i])) && Terminated(lines)[..1] == format.source[..1]
  {
    var lines := RecordLines(format, package, version, entries);
    forall i | 0 <= i < |entries|
      ensures OneLine(" " + Texts(entries)[i])
    {
      TextIsClean(entries[i]);
    }
    assert Terminated(lines)[0] == lines[0][0] == format.source[0];
  }

  lemma FieldsOfRecord(format: Format, package: string, version: string, entries: seq<(string, Payload)>)
    requires ValidFormat(format) && Plain(package) && Plain(version) && ValidEntries(entries)
    ensures ReadFields(RecordLines(format, package, version, entries)) ==
            Ok(Fields(FieldMap(format, package, version, Folded(Texts(entries))), Some(format.checksums)))
  {
    var values := FieldMap(format, package, version, "");
    HeaderRead(format, package, version);
    forall i | 0 <= i < |entries|
      ensures Clean(Texts(entries)[i])
    {
      TextIsClean(entries[i]);
    }
    ContinuationsAdded(HeaderLines(format, package, version), values, format.checksums, Texts(entries));
    FieldMapUpdate(format, package, version, Folded(Texts(entries)));
  }

  lemma InventoryOfRecord(
    format: Format, fields: map<string, string>, package: string, version: string, entries: seq<(string, Payload)>)
    requires ValidFormat(format) && ValidEntries(entries) && entries != []
    requires fields == FieldMap(format, package, version, Folded(Texts(entries)))
    ensures Inventory(format, fields, package, version) == Ok(MapOf(entries))
  {
    FoldedSplits(entries);
    PayloadsRead(entries);
    assert entries[|entries| - 1].0 in MapOf(entries);
  }

  lemma BareIsUnwrapped(format: Format, text: string)
    requires IsMarker(format.opening) && text != "" && text[0] != '-'
    ensures Unwrap(format, text) == Ok(text)
  {
    var opening := format.opening;
    if |opening| <= |text| {
      assert text[0..|opening|][0] == text[0];
    }
  }

  /** Rendering a package, a version and its payloads as a record and parsing it gives the payloads back. */
  lemma RenderedRecordParses(format: Format, package: string, version: string, entries: seq<(string, Payload)>)
    requires ValidFormat(format) && Plain(package) && Plain(version) && ValidEntries(entries) && entries != []
    ensures Parsed(format, Terminated(RecordLines(format, package, version, entries)), package, version) ==
      Ok(MapOf(entries))
  {
    var lines := RecordLines(format, package, version, entries);
    var text := Terminated(lines);
    RecordIsLines(format, package, version, entries);
    assert text[0] == text[..1][0] == format.source[..1][0];
    BareIsUnwrapped(format, text);
    SplitTerminated(lines);
    FieldsOfRecord(format, package, version, entries);
    var fields := FieldMap(format, package, version, Folded(Texts(entries)));
    InventoryOfRecord(format, fields, package, version, entries);
  }

  // ----- A record that says something else inside a signed message -----

  lemma ReadOneMore(lines: seq<string>, line: string)
    ensures ReadFields(lines + [line]) ==
            if ReadFields(lines).Err? then ReadFields(lines) else AddLine(ReadFields(lines).value, line)
  {
    assert (lines + [line])[..|lines|] == lines;
  }

  lemma {:induction false} BlankStartIsIgnored(lines: seq<string>)
    ensures ReadFields([""] + lines) == ReadFields(lines)
  {
    if lines == [] {
      ReadOneMore([], "");
      assert [""] + lines == [] + [""];
    } else {
      var front, last := lines[..|lines| - 1], lines[|lines| - 1];
      FrontAndLast(lines);
      Regrouped([""], front, [last]);
      ReadOneMore([""] + front, last);
      ReadOneMore(front, last);
      BlankStartIsIgnored(front);
    }
  }

  /** Every field that is read is named by a line. */
  lemma {:induction false} FieldsAreNamed(lines: seq<string>, key: string)
    requires ReadFields(lines).Ok? && key in ReadFields(lines).value.values
    ensures exists i :: 0 <= i < |lines| && Matches(lines[i], key + ":", 0)
  {
    var front, last := lines[..|lines| - 1], lines[|lines| - 1];
    var fields := ReadFields(front).value;
    if key in fields.values {
      FieldsAreNamed(front, key);
      var i :| 0 <= i < |front| && Matches(front[i], key + ":", 0);
      assert Matches(lines[i], key + ":", 0);
    } else {
      var colon := Find(last, ":").value;
      assert key == last[..colon] && last[colon..colon + 1] == ":";
      assert last[0..|key| + 1] == key + ":";
    }
  }

  /** A field has one name. */
  lemma OneName(a: string, b: string, rest: string)
    requires IsKey(a) && IsKey(b) && a != b
    ensures !Matches(a + ":" + rest, b + ":", 0)
  {
    var text, name := a + ":" + rest, b + ":";
    assert text[|a|] == ':' && name[|b|] == ':' && (forall i | 0 <= i < |a| :: text[i] == a[i]);
    assert forall i | 0 <= i < |b| :: name[i] == b[i];
    SamePrefix(text, name);
    if |a| == |b| {
      assert exists i :: 0 <= i < |a| && a[i] != b[i];
    }
  }

  lemma SamePrefix(text: string, part: string)
    ensures Matches(text, part, 0) ==> |part| <= |text| && forall i | 0 <= i < |part| :: text[i] == part[i]
  {
    if Matches(text, part, 0) {
      assert forall i | 0 <= i < |part| :: text[0..|part|][i] == text[i];
    }
  }

  /** The first line of a record, hidden behind a vertical tab and an escape. */
  function Hidden(line: string): string {
    "\U{0B}" + ("- " + line)
  }

  function HidingLines(
    format: Format, package: string, version: string, entries: seq<(string, Payload)>): seq<string>
  {
    var lines := RecordLines(format, package, version, entries);
    [Hidden(lines[0])] + lines[1..]
  }

  lemma HiddenPieces(line: string)
    requires OneLine(line)
    ensures Pieces(Hidden(line)) == ["", "- " + line] && Arrived(Pieces(Hidden(line))) == ["", line]
    ensures !Intact(Hidden(line)) && NoLineFeed(Hidden(line))
  {
    var text := Hidden(line) + "\n";
    var rest := "- " + line + "\n" + "";
    assert LineEnd(text) == 0 && text[1..] == rest && text[..0] == "";
    SplitFirst("- " + line, "");
    assert Pieces(Hidden(line)) == [""] + ["- " + line];
    assert Pieces(Hidden(line))[1] == "- " + line && Matches("- " + line, "- ", 0);
    assert ["", "- " + line][1..] == ["- " + line];
    assert UnescapeAll(["- " + line]) == [line];
  }

  lemma {:induction false} OneLinesArrive(lines: seq<string>)
    requires forall i | 0 <= i < |lines| :: OneLine(lines[i])
    ensures Given(lines) == lines && Received(lines) == lines
  {
    if lines != [] {
      OneLineIsIntact(lines[0]);
      PiecesArriveIntact(lines[0]);
      OneLinesArrive(lines[1..]);
    }
  }

  lemma NoOtherSource(format: Format, package: string, version: string, entries: seq<(string, Payload)>, i: nat)
    requires ValidFormat(format) && 1 <= i < |RecordLines(format, package, version, entries)|
    ensures !Matches(RecordLines(format, package, version, entries)[i], format.source + ":", 0)
  {
    var lines, name := RecordLines(format, package, version, entries), format.source + ":";
    if i == 1 {
      OneName(format.version, format.source, " " + version);
    } else if i == 2 {
      OneName(format.checksums, format.source, "");
    } else {
      assert lines[i] == Indented(Texts(entries))[i - 3];
      assert lines[i][0] == ' ' && name[0] == format.source[0];
      SamePrefix(lines[i], name);
    }
  }

  lemma HidingGiven(lines: seq<string>)
    requires lines != [] && forall i | 0 <= i < |lines| :: OneLine(lines[i])
    ensures Given([Hidden(lines[0])] + lines[1..]) == ["", "- " + lines[0]] + lines[1..]
  {
    HiddenPieces(lines[0]);
    OneLinesArrive(lines[1..]);
    TailOf(Hidden(lines[0]), lines[1..]);
  }

  lemma NoSourceGiven(format: Format, package: string, version: string, entries: seq<(string, Payload)>)
    requires ValidFormat(format)
    ensures var lines := RecordLines(format, package, version, entries);
      var given := ["", "- " + lines[0]] + lines[1..];
      forall i | 0 <= i < |given| :: !Matches(given[i], format.source + ":", 0)
  {
    var lines, name := RecordLines(format, package, version, entries), format.source + ":";
    var given := ["", "- " + lines[0]] + lines[1..];
    assert name[0] == format.source[0];
    forall i | 0 <= i < |given|
      ensures !Matches(given[i], name, 0)
    {
      SamePrefix(given[i], name);
      if i >= 2 {
        assert given[i] == lines[i - 1];
        NoOtherSource(format, package, version, entries, i - 1);
      }
    }
  }

  /** Bare, the hidden field is not the source: the record is refused. */
  lemma HidingRecordIsRefusedBare(format: Format, package: string, version: string, entries: seq<(string, Payload)>)
    requires ValidFormat(format) && Plain(package) && Plain(version) && ValidEntries(entries)
    ensures Parsed(format, Terminated(HidingLines(format, package, version, entries)), package, version).Err?
  {
    var lines := RecordLines(format, package, version, entries);
    var hiding := HidingLines(format, package, version, entries);
    var text := Terminated(hiding);
    RecordIsLines(format, package, version, entries);
    assert text[0] == hiding[0][0] == '\U{0B}';
    BareIsUnwrapped(format, text);
    SplitIntoGiven(hiding);
    HidingGiven(lines);
    var given := ["", "- " + lines[0]] + lines[1..];
    NoSourceGiven(format, package, version, entries);
    if ReadFields(given).Ok? && format.source in ReadFields(given).value.values {
      FieldsAreNamed(given, format.source);
    }
  }

  lemma ReceivedFirst(first: string, rest: seq<string>)
    ensures Received([first] + rest) == Arrived(Pieces(first)) + Received(rest)
  {
    assert ([first] + rest)[1..] == rest;
  }

  lemma HidingReceived(lines: seq<string>)
    requires lines != [] && forall i | 0 <= i < |lines| :: OneLine(lines[i])
    ensures Received([Hidden(lines[0])] + lines[1..]) == [""] + lines
  {
    var first, rest := lines[0], lines[1..];
    ReceivedFirst(Hidden(first), rest);
    HiddenPieces(first);
    OneLinesArrive(rest);
    HeadAndTail(lines);
    Regrouped([""], [first], rest);
  }

  lemma HidingUnwraps(
    format: Format, headers: seq<string>, signature: string,
    package: string, version: string, entries: seq<(string, Payload)>)
    requires ValidFormat(format) && Plain(package) && Plain(version) && ValidEntries(entries)
    requires forall i | 0 <= i < |headers| :: headers[i] != "" && NoLineFeed(headers[i])
    requires forall line <- HidingLines(format, package, version, entries) :: !Contains(line, format.closing)
    ensures var lines := [""] + RecordLines(format, package, version, entries);
      && Unwrap(format, Wrapped(format, headers, HidingLines(format, package, version, entries), signature)) ==
         Ok(Joined(lines))
      && SplitLines(Joined(lines)) == WithoutBlankEnd(lines)
  {
    var lines := RecordLines(format, package, version, entries);
    RecordIsLines(format, package, version, entries);
    HiddenPieces(lines[0]);
    HidingReceived(lines);
    UnwrapUndoesWrapping(format, headers, HidingLines(format, package, version, entries), signature);
  }

  /**
   Unescaping pieces instead of lines can change what a record says: this one is refused bare, and accepted inside a
   signed message.
   */
  lemma SignedRecordCanDiffer(
    format: Format, headers: seq<string>, signature: string,
    package: string, version: string, entries: seq<(string, Payload)>)
    requires ValidFormat(format) && Plain(package) && Plain(version) && ValidEntries(entries) && entries != []
    requires forall i | 0 <= i < |headers| :: headers[i] != "" && NoLineFeed(headers[i])
    requires forall line <- HidingLines(format, package, version, entries) :: !Contains(line, format.closing)
    ensures var lines := HidingLines(format, package, version, entries);
      && Parsed(format, Terminated(lines), package, version).Err?
      && Parsed(format, Wrapped(format, headers, lines, signature), package, version) == Ok(MapOf(entries))
  {
    var lines := RecordLines(format, package, version, entries);
    HidingRecordIsRefusedBare(format, package, version, entries);
    HidingUnwraps(format, headers, signature, package, version, entries);
    BlankEndIsIgnored([""] + lines);
    BlankStartIsIgnored(lines);
    FieldsOfRecord(format, package, version, entries);
    InventoryOfRecord(
      format, FieldMap(format, package, version, Folded(Texts(entries))), package, version, entries);
  }
}
