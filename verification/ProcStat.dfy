/** The start time of a process, read from a line of /proc/<pid>/stat
    (src/state.rs, `start_time` and `parse_start_time`). */
module ProcStat {
  import opened Wrappers
  import opened Text
  import opened Utf8

  predicate IsSpace(c: char) {
    c == ' ' || c == '\n' || c == '\t' || c == '\r' || c == 11 as char || c == 12 as char
  }

  /** `str::rfind` for one character. */
  function LastIndex(s: string, c: char): (index: Option<nat>)
    ensures index.Some? ==> index.value < |s| && s[index.value] == c && c !in s[index.value + 1..]
    ensures index.None? ==> c !in s
  {
    if s == "" then None
    else if s[|s| - 1] == c then Some(|s| - 1)
    else
      var index := LastIndex(s[..|s| - 1], c);
      assert s == s[..|s| - 1] + [s[|s| - 1]];
      assert index.Some? ==> s[index.value + 1..] == s[..|s| - 1][index.value + 1..] + [s[|s| - 1]];
      index
  }

  /** Length of the run of non-space characters at the front. */
  function WordLength(s: string): (n: nat)
    ensures n <= |s|
    ensures s != "" && !IsSpace(s[0]) ==> n > 0
  {
    if s == "" || IsSpace(s[0]) then 0 else 1 + WordLength(s[1..])
  }

  /** `str::split_whitespace`. */
  function Words(s: string): seq<string>
    decreases |s|
  {
    if s == "" then []
    else if IsSpace(s[0]) then Words(s[1..])
    else [s[..WordLength(s)]] + Words(s[WordLength(s)..])
  }

  const U64_LIMIT: nat := 0x1_0000_0000_0000_0000

  /** `str::parse::<u64>`: an optional plus sign, at least one digit, no overflow. */
  function ParseU64(s: string): Option<nat> {
    var digits := if s != "" && s[0] == '+' then s[1..] else s;
    if digits == "" then None
    else
      match ParseDigits(digits)
      case Some(n) => if n < U64_LIMIT then Some(n) else None
      case None => None
  }

  /** Field 22 is the twentieth word after the command name. */
  function ParseStartTime(stat: string): Option<nat> {
    match LastIndex(stat, ')')
    case None => None
    case Some(end) =>
      var words := Words(stat[end + 1..]);
      if |words| > 19 then ParseU64(words[19]) else None
  }

  // ----- the line the kernel prints

  predicate IsWord(s: string) {
    s != "" && forall c :: c in s ==> !IsSpace(c) && c != ')' && c as int < 0x80
  }

  function Spaced(fields: seq<string>): string {
    if fields == [] then "" else " " + fields[0] + Spaced(fields[1..])
  }

  /** Pid, command name in parentheses, then the fields from the third on. */
  function StatLine(pid: nat, comm: string, fields: seq<string>): string {
    Decimal(pid) + " (" + comm + ")" + Spaced(fields) + "\n"
  }

  lemma {:induction false} WordLengthOf(word: string, rest: string)
    requires forall c :: c in word ==> !IsSpace(c)
    requires rest == "" || IsSpace(rest[0])
    ensures WordLength(word + rest) == |word|
  {
    if word == "" {
      assert word + rest == rest;
    } else {
      assert (word + rest)[1..] == word[1..] + rest;
      WordLengthOf(word[1..], rest);
    }
  }

  lemma FirstWord(word: string, rest: string)
    requires IsWord(word) && rest != "" && IsSpace(rest[0])
    ensures Words([' '] + (word + rest)) == [word] + Words(rest)
  {
    var line := word + rest;
    assert ([' '] + line)[1..] == line;
    assert line[0] == word[0] && word[0] in word;
    WordLengthOf(word, rest);
    assert line[..|word|] == word && line[|word|..] == rest;
  }

  lemma {:induction false} WordsOfSpaced(fields: seq<string>)
    requires forall f :: f in fields ==> IsWord(f)
    ensures Words(Spaced(fields) + "\n") == fields
  {
    if fields == [] {
      assert ("" + "\n")[1..] == "";
    } else {
      var rest := Spaced(fields[1..]) + "\n";
      assert fields[0] in fields;
      assert Spaced(fields) + "\n" == [' '] + (fields[0] + rest);
      SpacedBegins(fields[1..]);
      FirstWord(fields[0], rest);
      WordsOfSpaced(fields[1..]);
    }
  }

  lemma SpacedBegins(fields: seq<string>)
    ensures var line := Spaced(fields) + "\n";
            line != "" && IsSpace(line[0])
  {
  }

  lemma {:induction false} SpacedHasNoParenthesis(fields: seq<string>)
    requires forall f :: f in fields ==> IsWord(f)
    ensures ')' !in Spaced(fields)
  {
    if fields != [] {
      assert fields[0] in fields;
      SpacedHasNoParenthesis(fields[1..]);
    }
  }

  lemma LastIndexOf(before: string, after: string, c: char)
    requires c !in after
    ensures LastIndex(before + [c] + after, c) == Some(|before|)
  {
    var s := before + [c] + after;
    assert s[|before|] == c;
  }

  /** Whatever spaces, newlines or parentheses the command name contains, field 22 is recovered. */
  lemma StartTimeOfAnyCommand(pid: nat, comm: string, fields: seq<string>, startTime: nat)
    requires forall f :: f in fields ==> IsWord(f)
    requires |fields| > 19 && fields[19] == Decimal(startTime)
    ensures ParseStartTime(StatLine(pid, comm, fields))
            == if startTime < U64_LIMIT then Some(startTime) else None
  {
    var before := Decimal(pid) + " (" + comm;
    var after := Spaced(fields) + "\n";
    SpacedHasNoParenthesis(fields);
    assert StatLine(pid, comm, fields) == before + [')'] + after;
    FieldsOf(before, after);
    WordsOfSpaced(fields);
    ParseU64OfDecimal(startTime);
  }

  /** What is parsed is what follows the last closing parenthesis. */
  lemma FieldsOf(before: string, after: string)
    requires ')' !in after
    ensures var line := before + [')'] + after;
            LastIndex(line, ')') == Some(|before|) && line[|before| + 1..] == after
  {
    LastIndexOf(before, after, ')');
  }

  lemma ParseU64OfDecimal(n: nat)
    ensures ParseU64(Decimal(n)) == if n < U64_LIMIT then Some(n) else None
  {
    ParseDecimal(n);
    assert Decimal(n)[0] in Decimal(n);
  }

  // ----- the line as bytes

  /** What the kernel keeps of a command name: at most 15 bytes, wherever that cuts it. */
  function Comm(name: Bytes): Bytes {
    if |name| <= 15 then name else name[..15]
  }

  /** The line the kernel writes; the command name goes into it as it is. */
  function StatBytes(pid: nat, comm: Bytes, fields: seq<string>): Bytes
    requires forall f :: f in fields ==> IsWord(f)
  {
    AsciiFrame(pid, fields);
    Ascii(Decimal(pid) + " (") + comm + Ascii(")" + Spaced(fields) + "\n")
  }

  lemma {:induction false} AsciiSpaced(fields: seq<string>)
    requires forall f :: f in fields ==> IsWord(f)
    ensures IsAscii(Spaced(fields))
  {
    if fields != [] {
      assert fields[0] in fields;
      assert forall i :: 0 <= i < |fields[0]| ==> fields[0][i] in fields[0];
      AsciiSpaced(fields[1..]);
    }
  }

  lemma AsciiFrame(pid: nat, fields: seq<string>)
    requires forall f :: f in fields ==> IsWord(f)
    ensures IsAscii(Decimal(pid) + " (") && IsAscii(")" + Spaced(fields) + "\n")
  {
    ParseDecimal(pid);
    assert forall i :: 0 <= i < |Decimal(pid)| ==> Decimal(pid)[i] in Decimal(pid);
    AsciiSpaced(fields);
  }

  /** `start_time`: a line that is not UTF-8 cannot be read. */
  function StartTime(line: Bytes): Option<nat> {
    match Decode(line)
    case None => None
    case Some(text) => ParseStartTime(text)
  }

  lemma DecodeLine(pid: nat, comm: Bytes, fields: seq<string>)
    requires forall f :: f in fields ==> IsWord(f)
    ensures Decode(StatBytes(pid, comm, fields))
            == if Decode(comm).Some? then Some(StatLine(pid, Decode(comm).value, fields)) else None
  {
    AsciiFrame(pid, fields);
    DecodeFramed(Decimal(pid) + " (", comm, ")" + Spaced(fields) + "\n");
    if Decode(comm).Some? {
      SameLine(pid, Decode(comm).value, fields);
    }
  }

  lemma SameLine(pid: nat, comm: string, fields: seq<string>)
    ensures (Decimal(pid) + " (") + comm + (")" + Spaced(fields) + "\n") == StatLine(pid, comm, fields)
  {
  }

  lemma DecodeFramed(front: string, comm: Bytes, back: string)
    requires IsAscii(front) && IsAscii(back)
    ensures Decode(Ascii(front) + comm + Ascii(back))
            == if Decode(comm).Some? then Some(front + Decode(comm).value + back) else None
  {
    DecodeAscii(front);
    DecodeAscii(back);
    DecodeConcat(comm, Ascii(back));
    DecodeAfterText(Ascii(front), comm + Ascii(back));
    SameBytes(Ascii(front), comm, Ascii(back));
    BothTwice(front, Decode(comm), back);
  }

  lemma SameBytes(a: Bytes, b: Bytes, c: Bytes)
    ensures a + (b + c) == a + b + c
  {
  }

  lemma BothTwice(a: string, b: Option<string>, c: string)
    ensures Both(Some(a), Both(b, Some(c))) == if b.Some? then Some(a + b.value + c) else None
  {
    assert b.Some? ==> a + (b.value + c) == a + b.value + c;
  }

  /** The start time is found exactly if the command name is UTF-8, whatever else it contains. */
  lemma ReadExactly(pid: nat, comm: Bytes, fields: seq<string>, startTime: nat)
    requires forall f :: f in fields ==> IsWord(f)
    requires |fields| > 19 && fields[19] == Decimal(startTime)
    ensures StartTime(StatBytes(pid, comm, fields))
            == if Decode(comm).Some? && startTime < U64_LIMIT then Some(startTime) else None
  {
    DecodeLine(pid, comm, fields);
    if Decode(comm).Some? {
      StartTimeOfAnyCommand(pid, Decode(comm).value, fields, startTime);
    }
  }

  /** For a program with a UTF-8 name: exactly if the name has no more than 15 bytes or its first 15 end
      with a character. */
  lemma NameIsReadExactly(pid: nat, name: Bytes, fields: seq<string>, startTime: nat)
    requires forall f :: f in fields ==> IsWord(f)
    requires |fields| > 19 && fields[19] == Decimal(startTime) && startTime < U64_LIMIT
    requires Decode(name).Some?
    ensures StartTime(StatBytes(pid, Comm(name), fields)) == Some(startTime)
            <==> |name| <= 15 || !IsContinuation(name[15])
  {
    ReadExactly(pid, Comm(name), fields, startTime);
    if |name| > 15 {
      CutTextExactly(name, 15);
    }
  }

  /** Ten Cyrillic letters in twenty bytes. */
  const CYRILLIC: Bytes := [
    0xD0, 0xBF, 0xD1, 0x80, 0xD0, 0xB8, 0xD0, 0xBB, 0xD0, 0xBE,
    0xD0, 0xB6, 0xD0, 0xB5, 0xD0, 0xBD, 0xD0, 0xB8, 0xD0, 0xB5]

  /** A program with that name runs with a line that cannot be read. */
  lemma CutNameIsNotRead(pid: nat, fields: seq<string>, startTime: nat)
    requires forall f :: f in fields ==> IsWord(f)
    requires |fields| > 19 && fields[19] == Decimal(startTime) && startTime < U64_LIMIT
    ensures Decode(CYRILLIC).Some? && |Comm(CYRILLIC)| == 15
    ensures StartTime(StatBytes(pid, Comm(CYRILLIC), fields)) == None
  {
    PairsDecode(CYRILLIC);
    ReadExactly(pid, Comm(CYRILLIC), fields, startTime);
    CutTextExactly(CYRILLIC, 15);
  }

  lemma {:induction false} PairsDecode(s: Bytes)
    requires |s| % 2 == 0
    requires forall i :: 0 <= i < |s| ==> if i % 2 == 0 then 0xC2 <= s[i] < 0xE0 else IsContinuation(s[i])
    ensures Decode(s).Some?
  {
    if s != [] {
      var rest := s[2..];
      forall i | 0 <= i < |rest| ensures if i % 2 == 0 then 0xC2 <= rest[i] < 0xE0 else IsContinuation(rest[i]) {
        assert rest[i] == s[i + 2];
      }
      PairsDecode(rest);
    }
  }
}
