/** The text side of the mesh tools: lines, words, `/` fields and decimal integers, as Python reads and prints them. */
module MeshText {
  import opened MeshFormat
  import opened Options

  // ----- Characters -----

  predicate LineBreak(c: char) { c == '\n' || c == '\r' }

  /** `str.isspace` */
  predicate Space(c: char) {
    var u := c as int;
    || 0x09 <= u <= 0x0D || 0x1C <= u <= 0x20 || u == 0x85 || u == 0xA0 || u == 0x1680
    || 0x2000 <= u <= 0x200A || u == 0x2028 || u == 0x2029 || u == 0x202F || u == 0x205F || u == 0x3000
  }

  /** The characters that `str.split` cuts at, and the two that end a line */
  lemma SpacesAndBreaks(c: char)
    ensures Space(c) <==> c as int in [
              0x09, 0x0A, 0x0B, 0x0C, 0x0D, 0x1C, 0x1D, 0x1E, 0x1F, 0x20, 0x85, 0xA0, 0x1680, 0x2000, 0x2001, 0x2002,
              0x2003, 0x2004, 0x2005, 0x2006, 0x2007, 0x2008, 0x2009, 0x200A, 0x2028, 0x2029, 0x202F, 0x205F, 0x3000]
    ensures LineBreak(c) <==> c in "\n\r"
  {}

  predicate Digit(c: char) { '0' <= c <= '9' }

  ghost predicate NoSpace(s: string) { forall c | c in s :: !Space(c) }

  ghost predicate IsWord(s: string) { s != "" && NoSpace(s) }

  ghost predicate IsLine(s: string) { forall c | c in s :: !LineBreak(c) }

  // ----- Cutting -----

  /** How many characters come before the first line break, space or slash */
  function LineLength(s: string): (n: nat)
    ensures n <= |s| && (n < |s| ==> LineBreak(s[n]))
    ensures forall i | 0 <= i < n :: !LineBreak(s[i])
  {
    if s == "" || LineBreak(s[0]) then 0 else 1 + LineLength(s[1..])
  }

  function WordLength(s: string): (n: nat)
    ensures n <= |s| && (n < |s| ==> Space(s[n]))
    ensures forall i | 0 <= i < n :: !Space(s[i])
  {
    if s == "" || Space(s[0]) then 0 else 1 + WordLength(s[1..])
  }

  function FieldLength(s: string): (n: nat)
    ensures n <= |s| && (n < |s| ==> s[n] == '/')
    ensures forall i | 0 <= i < n :: s[i] != '/'
  {
    if s == "" || s[0] == '/' then 0 else 1 + FieldLength(s[1..])
  }

  /** The lines of a text file; both kinds of line break count, so that "\r\n" only adds an empty line. */
  function Lines(text: string): seq<string>
    decreases |text|
  {
    if text == "" then []
    else
      var n := LineLength(text);
      [text[..n]] + if n == |text| then [] else Lines(text[n + 1..])
  }

  /** `line.split()` */
  function Words(line: string): seq<string>
    decreases |line|
  {
    if line == "" then []
    else if Space(line[0]) then Words(line[1..])
    else
      var n := WordLength(line);
      [line[..n]] + Words(line[n..])
  }

  /** `vertex.split('/')` */
  function Fields(vertex: string): (fields: seq<string>)
    ensures |fields| > 0
    decreases |vertex|
  {
    var n := FieldLength(vertex);
    [vertex[..n]] + if n == |vertex| then [] else Fields(vertex[n + 1..])
  }

  // ----- Putting together -----

  /** The words of a printed line, with one space between them */
  function Joined(words: seq<string>): string {
    if words == [] then ""
    else if |words| == 1 then words[0]
    else words[0] + " " + Joined(words[1..])
  }

  function Printed(lines: seq<string>): string {
    if lines == [] then "" else lines[0] + "\n" + Printed(lines[1..])
  }

  ghost predicate AreWords(words: seq<string>) { forall w | w in words :: IsWord(w) }

  ghost predicate AreLines(lines: seq<string>) { forall l | l in lines :: IsLine(l) }

  lemma LineLengthIs(s: string, n: nat)
    requires n <= |s| && (n < |s| ==> LineBreak(s[n])) && forall i | 0 <= i < n :: !LineBreak(s[i])
    ensures LineLength(s) == n
  {}

  lemma WordLengthIs(s: string, n: nat)
    requires n <= |s| && (n < |s| ==> Space(s[n])) && forall i | 0 <= i < n :: !Space(s[i])
    ensures WordLength(s) == n
  {}

  lemma FieldLengthIs(s: string, n: nat)
    requires n <= |s| && (n < |s| ==> s[n] == '/') && forall i | 0 <= i < n :: s[i] != '/'
    ensures FieldLength(s) == n
  {}

  /** The lines of a printed text are the lines that were printed. */
  lemma {:induction false} LinesOfPrinted(lines: seq<string>)
    requires AreLines(lines)
    ensures Lines(Printed(lines)) == lines
  {
    if lines != [] {
      var text := Printed(lines);
      assert text == lines[0] + "\n" + Printed(lines[1..]);
      assert IsLine(lines[0]);
      LineLengthIs(text, |lines[0]|);
      assert text[..|lines[0]|] == lines[0];
      assert text[|lines[0]| + 1..] == Printed(lines[1..]);
      LinesOfPrinted(lines[1..]);
      assert [lines[0]] + lines[1..] == lines;
    }
  }

  /** The words of a joined line are the words that were joined. */
  lemma {:induction false} WordsOfJoined(words: seq<string>)
    requires AreWords(words)
    ensures Words(Joined(words)) == words
  {
    if words != [] {
      var line, first := Joined(words), words[0];
      assert IsWord(first);
      if |words| == 1 {
        WordLengthIs(line, |first|);
        assert line[..|first|] == first && line[|first|..] == "";
      } else {
        var rest := Joined(words[1..]);
        assert line == first + " " + rest;
        WordLengthIs(line, |first|);
        assert line[..|first|] == first;
        var tail := line[|first|..];
        assert tail == " " + rest && tail[1..] == rest;
        WordsOfJoined(words[1..]);
        assert [first] + words[1..] == words;
      }
    }
  }

  lemma FieldsCut(a: string, rest: string)
    requires '/' !in a
    ensures Fields(a + "/" + rest) == [a] + Fields(rest)
  {
    var s := a + "/" + rest;
    FieldLengthIs(s, |a|);
    assert s[..|a|] == a && s[|a| + 1..] == rest;
  }

  /** The three fields of `a/b/c` */
  lemma FieldsOfThree(a: string, b: string, c: string)
    requires '/' !in a && '/' !in b && '/' !in c
    ensures Fields(a + "/" + (b + "/" + c)) == [a, b, c]
  {
    FieldsCut(a, b + "/" + c);
    FieldsCut(b, c);
    FieldLengthIs(c, |c|);
    assert c[..|c|] == c;
  }

  // ----- Decimal integers -----

  function DigitOf(n: nat): char
    requires n < 10
  {
    '0' + n as char
  }

  function ValueOf(c: char): nat
    requires Digit(c)
  {
    (c - '0') as nat
  }

  function Natural(n: nat): string {
    if n < 10 then [DigitOf(n)] else Natural(n / 10) + [DigitOf(n % 10)]
  }

  /** `'%d' % n` */
  function Decimal(n: int): string {
    if n < 0 then "-" + Natural(-n) else Natural(n)
  }

  /** Digits, with single underscores between them */
  function ParseNatural(s: string): Option<nat>
    decreases |s|
  {
    if s == "" then None
    else
      var last := s[|s| - 1];
      if !Digit(last) then None
      else if |s| == 1 then Some(ValueOf(last))
      else
        var front := if s[|s| - 2] == '_' then s[..|s| - 2] else s[..|s| - 1];
        match ParseNatural(front)
        case None => None
        case Some(n) => Some(10 * n + ValueOf(last))
  }

  /** `int(s)` of a word; only the ASCII digits are modelled. */
  function ParseInt(s: string): Option<int> {
    var negative := s != "" && s[0] == '-';
    var digits := if s != "" && (s[0] == '-' || s[0] == '+') then s[1..] else s;
    match ParseNatural(digits)
    case None => None
    case Some(n) => Some(if negative then -(n as int) else n)
  }

  lemma {:induction false} NaturalDigits(n: nat)
    ensures Natural(n) != "" && forall c | c in Natural(n) :: Digit(c)
  {
    if n >= 10 {
      NaturalDigits(n / 10);
    }
  }

  lemma {:induction false} ParseNaturalOfNatural(n: nat)
    ensures ParseNatural(Natural(n)) == Some(n)
  {
    if n >= 10 {
      var s := Natural(n);
      NaturalDigits(n / 10);
      ParseNaturalOfNatural(n / 10);
      assert s[..|s| - 1] == Natural(n / 10);
      assert s[|s| - 2] in Natural(n / 10);
    }
  }

  /** A digit more makes ten times the number and its value. */
  lemma OneDigitMore(front: string, digit: char)
    requires front != "" && front[|front| - 1] != '_' && Digit(digit)
    ensures ParseNatural(front + [digit])
         == match ParseNatural(front)
            case None => None
            case Some(n) => Some(10 * n + (digit as int - '0' as int))
  {
    hide ParseNatural;
    var s := front + [digit];
    assert |s| >= 2 && s[|s| - 1] == digit;
    assert s[|s| - 2] != '_';
    assert s[..|s| - 1] == front;
    LastDigit(s, front);
  }

  lemma LastDigit(s: string, before: string)
    requires |s| >= 2 && Digit(s[|s| - 1]) && before == if s[|s| - 2] == '_' then s[..|s| - 2] else s[..|s| - 1]
    ensures ParseNatural(s)
         == match ParseNatural(before)
            case None => None
            case Some(n) => Some(10 * n + (s[|s| - 1] as int - '0' as int))
  {
    assert ValueOf(s[|s| - 1]) == s[|s| - 1] as int - '0' as int;
  }

  /** An underscore in front of it changes nothing ... */
  lemma OneUnderscore(front: string, digit: char)
    requires Digit(digit)
    ensures ParseNatural(front + "_" + [digit])
         == match ParseNatural(front)
            case None => None
            case Some(n) => Some(10 * n + (digit as int - '0' as int))
  {
    hide ParseNatural;
    var s := front + "_" + [digit];
    assert s[..|s| - 2] == front && s[|s| - 2] == '_' && s[|s| - 1] == digit;
    LastDigit(s, front);
  }

  lemma NoNumber(s: string)
    requires s == "" || !Digit(s[|s| - 1])
    ensures ParseNatural(s) == None
  {}

  /** ... but no number starts or ends with one, and two of them are an error. */
  lemma Underscores(front: string, digit: char)
    requires front != "" && front[|front| - 1] != '_' && Digit(digit)
    ensures ParseNatural(front + "_" + [digit]) == ParseNatural(front + [digit])
    ensures ParseNatural(front + "_") == None && ParseNatural("_" + [digit]) == None
    ensures ParseNatural((front + "_") + "_" + [digit]) == None
  {
    hide ParseNatural;
    OneDigitMore(front, digit);
    OneUnderscore(front, digit);
    NoNumber(front + "_");
    NoNumber("");
    OneUnderscore("", digit);
    OneUnderscore(front + "_", digit);
    assert "" + "_" + [digit] == "_" + [digit];
  }

  /** One sign may stand in front. */
  lemma Signs(digits: string)
    requires digits != "" && Digit(digits[0])
    ensures var n := ParseNatural(digits);
            && (n.None? ==> ParseInt(digits) == ParseInt("-" + digits) == ParseInt("+" + digits) == None)
            && (n.Some? ==>
                  && ParseInt(digits) == Some(n.value) && ParseInt("+" + digits) == Some(n.value)
                  && ParseInt("-" + digits) == Some(-(n.value as int)))
  {
    hide ParseInt, ParseNatural;
    NoSign(digits);
    PlusSign(digits);
    MinusSign(digits);
  }

  lemma NoSign(digits: string)
    requires digits != "" && Digit(digits[0])
    ensures ParseInt(digits) == match ParseNatural(digits) case None => None case Some(n) => Some(n)
  {
    hide ParseNatural;
    assert digits[0] != '-' && digits[0] != '+';
  }

  lemma PlusSign(digits: string)
    ensures ParseInt("+" + digits) == match ParseNatural(digits) case None => None case Some(n) => Some(n)
  {
    hide ParseNatural;
    var s := "+" + digits;
    assert s[0] == '+' && s[1..] == digits;
  }

  lemma MinusSign(digits: string)
    ensures ParseInt("-" + digits) == match ParseNatural(digits) case None => None case Some(n) => Some(-(n as int))
  {
    hide ParseNatural;
    var s := "-" + digits;
    assert s[0] == '-' && s[1..] == digits;
  }

  /** A printed integer parses to itself, and it is one word without a slash. */
  lemma ParseIntOfDecimal(n: int)
    ensures ParseInt(Decimal(n)) == Some(n)
    ensures IsWord(Decimal(n)) && '/' !in Decimal(n)
  {
    hide Natural, ParseNatural;
    if n < 0 {
      NaturalDigits(-n);
      ParseNaturalOfNatural(-n);
      ParseSigned(Natural(-n), -n);
    } else {
      NaturalDigits(n);
      ParseNaturalOfNatural(n);
      ParseUnsigned(Natural(n), n);
    }
  }

  lemma ParseSigned(digits: string, n: nat)
    requires ParseNatural(digits) == Some(n) && digits != "" && forall c | c in digits :: Digit(c)
    ensures ParseInt("-" + digits) == Some(-(n as int)) && IsWord("-" + digits) && '/' !in "-" + digits
  {
    hide ParseNatural;
    assert ("-" + digits)[1..] == digits;
  }

  lemma ParseUnsigned(digits: string, n: nat)
    requires ParseNatural(digits) == Some(n) && digits != "" && forall c | c in digits :: Digit(c)
    ensures ParseInt(digits) == Some(n) && IsWord(digits) && '/' !in digits
  {
    hide ParseNatural;
    assert Digit(digits[0]);
  }
}
