/** The JSON documents exchanged with the network, and the two ways the code looks into them. */
module JsonValue {
  import opened Prelude

  datatype Json =
    | Null
    | Bool(b: bool)
    | Num(n: real)
    | Str(s: string)
    | Arr(elems: seq<Json>)
    | Obj(fields: map<string, Json>)

  /** Member access by name; anything but an object has no members. */
  function Get(doc: Json, name: string): Option<Json> {
    if doc.Obj? && name in doc.fields then Some(doc.fields[name]) else None
  }

  function AsStr(v: Option<Json>): Option<string> {
    if v.Some? && v.value.Str? then Some(v.value.s) else None
  }

  /** The array behind an optional value; a missing or non-array value counts as empty. */
  function AsSlice(v: Option<Json>): seq<Json> {
    if v.Some? && v.value.Arr? then v.value.elems else []
  }

  /**
   * Evaluation of a JSON pointer, section 4 and section 5 of RFC 6901: the empty
   * pointer is the whole document, any other pointer starts with '/'.
   */
  function Pointer(doc: Json, path: string): Option<Json> {
    if path == "" then Some(doc)
    else if path[0] != '/' then None
    else Walk(doc, Split(path[1..]))
  }

  function Walk(doc: Json, tokens: seq<string>): Option<Json>
    decreases |tokens|
  {
    if tokens == [] then Some(doc)
    else
      match doc
      case Obj(fields) =>
        var name := Unescape(tokens[0]);
        if name in fields then Walk(fields[name], tokens[1..]) else None
      case Arr(elems) =>
        var i := ArrayIndex(Unescape(tokens[0]));
        if i.Some? && i.value < |elems| then Walk(elems[i.value], tokens[1..]) else None
      case _ => None
  }

  /** Reference tokens are the pieces between '/' separators. */
  function Split(path: string): seq<string> {
    SplitOn(path, '/')
  }

  /** The pieces between separators; the empty text is one empty piece. */
  function SplitOn(text: string, separator: char): (pieces: seq<string>)
    ensures pieces != []
  {
    if text == "" then [""]
    else
      var rest := SplitOn(text[1..], separator);
      if text[0] == separator then [""] + rest else [[text[0]] + rest[0]] + rest[1..]
  }

  /** "~1" stands for '/' and "~0" for '~'. */
  function Unescape(token: string): string {
    if |token| >= 2 && token[0] == '~' && token[1] == '1' then "/" + Unescape(token[2..])
    else if |token| >= 2 && token[0] == '~' && token[1] == '0' then "~" + Unescape(token[2..])
    else if token == "" then ""
    else [token[0]] + Unescape(token[1..])
  }

  /** Decimal array index; a leading zero is only allowed in "0" itself. */
  function ArrayIndex(token: string): Option<nat> {
    if token == "" || (token[0] == '0' && |token| > 1) then None else Digits(token, 0)
  }

  function Digits(token: string, acc: nat): Option<nat>
    decreases |token|
  {
    if token == "" then Some(acc)
    else if '0' <= token[0] <= '9' then Digits(token[1..], 10 * acc + (token[0] - '0') as nat)
    else None
  }

  // --------------------------------------------------------------------- numerals

  const DIGITS := "0123456789"

  function Decimal(n: nat): (s: string)
    ensures s != "" && forall i :: 0 <= i < |s| ==> s[i] in DIGITS
  {
    if n < 10 then [DIGITS[n]] else Decimal(n / 10) + [DIGITS[n % 10]]
  }

  lemma {:induction false} DigitsAppend(s: string, c: char, acc: nat)
    requires '0' <= c <= '9'
    ensures Digits(s + [c], acc) ==
      if Digits(s, acc).Some? then Some(10 * Digits(s, acc).value + (c - '0') as nat) else None
  {
    if s == "" {
      assert s + [c] == [c] && [c][1..] == "";
    } else {
      assert (s + [c])[0] == s[0] && (s + [c])[1..] == s[1..] + [c];
      if '0' <= s[0] <= '9' {
        DigitsAppend(s[1..], c, 10 * acc + (s[0] - '0') as nat);
      }
    }
  }

  lemma DigitValue(n: nat)
    requires n < 10
    ensures '0' <= DIGITS[n] <= '9' && (DIGITS[n] - '0') as nat == n
  {}

  /** A decimal numeral is read as its number. */
  lemma {:induction false} DecimalReadsBack(n: nat)
    ensures Digits(Decimal(n), 0) == Some(n)
  {
    DigitValue(n % 10);
    if n < 10 {
      assert [DIGITS[n]][1..] == "";
    } else {
      DecimalReadsBack(n / 10);
      DigitsAppend(Decimal(n / 10), DIGITS[n % 10], 0);
    }
  }

  lemma {:induction false} DecimalHasNoLeadingZero(n: nat)
    ensures Decimal(n)[0] == '0' <==> n == 0
    ensures n == 0 ==> Decimal(n) == "0"
    ensures '/' !in Decimal(n) && '~' !in Decimal(n) && '+' !in Decimal(n)
  {
    DigitValue(n % 10);
    if n >= 10 {
      DecimalHasNoLeadingZero(n / 10);
    }
  }

  lemma DecimalIsInjective(m: nat, n: nat)
    requires Decimal(m) == Decimal(n)
    ensures m == n
  {
    DecimalReadsBack(m);
    DecimalReadsBack(n);
  }

  ghost predicate OnlyDigits(text: string) {
    forall i :: 0 <= i < |text| ==> '0' <= text[i] <= '9'
  }

  /** The value of a numeral, from its last digit; leading zeros count nothing. */
  ghost function Value(digits: string): nat
    requires OnlyDigits(digits)
  {
    if digits == "" then 0
    else
      var last := |digits| - 1;
      10 * Value(digits[..last]) + (digits[last] - '0') as nat
  }

  /** Exactly the texts of digits are numerals. */
  lemma {:induction false} DigitsMeans(text: string)
    ensures Digits(text, 0).Some? <==> OnlyDigits(text)
    ensures Digits(text, 0).Some? ==> Digits(text, 0).value == Value(text)
    decreases |text|
  {
    if text != "" {
      var last := |text| - 1;
      DigitsMeans(text[..last]);
      assert text == text[..last] + [text[last]];
      if '0' <= text[last] <= '9' {
        DigitsAppend(text[..last], text[last], 0);
      } else {
        NoDigit(text, last, 0);
      }
    }
  }

  lemma {:induction false} NoDigit(text: string, i: nat, acc: nat)
    requires i < |text| && !('0' <= text[i] <= '9')
    ensures Digits(text, acc) == None
    decreases |text|
  {
    if i > 0 && '0' <= text[0] <= '9' {
      NoDigit(text[1..], i - 1, 10 * acc + (text[0] - '0') as nat);
    }
  }

  // ------------------------------------------------------------- pieces of a text

  /** The text from i to j is a piece: it has no separator, and stands between separators or the ends. */
  ghost predicate PieceAt(text: string, separator: char, i: int, j: int) {
    0 <= i <= j <= |text| && separator !in text[i..j] &&
    (i == 0 || text[i - 1] == separator) && (j == |text| || text[j] == separator)
  }

  ghost predicate LaterPiece(text: string, separator: char, piece: string) {
    exists i, j :: PieceAt(text, separator, i, j) && i > 0 && text[i..j] == piece
  }

  ghost predicate FirstPiece(text: string, separator: char, piece: string) {
    exists j :: PieceAt(text, separator, 0, j) && text[..j] == piece
  }

  lemma SliceShifts(text: string, i: nat, j: nat)
    requires 1 <= i <= j <= |text|
    ensures text[i..j] == text[1..][i - 1..j - 1]
  {
    var rest := text[1..];
    forall m | 0 <= m < j - i ensures text[i..j][m] == rest[i - 1..j - 1][m] {
      assert rest[i - 1 + m] == text[i + m];
    }
  }

  lemma PieceShifts(text: string, separator: char, i: int, j: int)
    requires text != "" && i >= 1 && (i > 1 || text[0] == separator)
    ensures PieceAt(text, separator, i, j) <==> PieceAt(text[1..], separator, i - 1, j - 1)
    ensures PieceAt(text, separator, i, j) ==> text[i..j] == text[1..][i - 1..j - 1]
  {
    if i <= j <= |text| {
      SliceShifts(text, i, j);
    }
  }

  lemma LaterPieces(text: string, separator: char, piece: string)
    requires text != ""
    ensures LaterPiece(text, separator, piece) <==>
      LaterPiece(text[1..], separator, piece) ||
      (text[0] == separator && FirstPiece(text[1..], separator, piece))
  {
    if LaterPiece(text, separator, piece) {
      LaterPieceOf(text, separator, piece);
    }
    if LaterPiece(text[1..], separator, piece) {
      var i, j :| PieceAt(text[1..], separator, i, j) && i > 0 && text[1..][i..j] == piece;
      PieceShifts(text, separator, i + 1, j + 1);
      assert PieceAt(text, separator, i + 1, j + 1);
    } else if text[0] == separator && FirstPiece(text[1..], separator, piece) {
      var j :| PieceAt(text[1..], separator, 0, j) && text[1..][..j] == piece;
      assert text[1..][0..j] == piece;
      PieceShifts(text, separator, 1, j + 1);
      assert PieceAt(text, separator, 1, j + 1);
    }
  }

  lemma LaterPieceOf(text: string, separator: char, piece: string)
    requires text != "" && LaterPiece(text, separator, piece)
    ensures LaterPiece(text[1..], separator, piece) ||
      (text[0] == separator && FirstPiece(text[1..], separator, piece))
  {
    var i, j :| PieceAt(text, separator, i, j) && i > 0 && text[i..j] == piece;
    PieceShifts(text, separator, i, j);
    if i == 1 {
      assert text[1..][..j - 1] == text[1..][0..j - 1];
      assert PieceAt(text[1..], separator, 0, j - 1);
    } else {
      assert PieceAt(text[1..], separator, i - 1, j - 1);
    }
  }

  lemma FirstPieces(text: string, separator: char, piece: string)
    requires text != "" && FirstPiece(text[1..], separator, piece)
    ensures FirstPiece(text, separator, if text[0] == separator then "" else [text[0]] + piece)
  {
    var j :| PieceAt(text[1..], separator, 0, j) && text[1..][..j] == piece;
    if text[0] == separator {
      assert PieceAt(text, separator, 0, 0);
    } else {
      assert text[..j + 1] == [text[0]] + text[1..][..j];
      assert PieceAt(text, separator, 0, j + 1);
    }
  }

  lemma {:induction false} SplitPieces(text: string, separator: char)
    ensures var pieces := SplitOn(text, separator);
      FirstPiece(text, separator, pieces[0]) &&
      forall piece :: piece in pieces[1..] <==> LaterPiece(text, separator, piece)
  {
    var pieces := SplitOn(text, separator);
    if text == "" {
      assert PieceAt("", separator, 0, 0);
    } else {
      var rest := SplitOn(text[1..], separator);
      SplitPieces(text[1..], separator);
      FirstPieces(text, separator, rest[0]);
      hide FirstPiece;
      hide LaterPiece;
      forall piece ensures piece in pieces[1..] <==> LaterPiece(text, separator, piece) {
        LaterPieces(text, separator, piece);
        FirstIsUnique(text[1..], separator, piece, rest[0]);
        assert rest == [rest[0]] + rest[1..];
      }
    }
  }

  lemma NoneBefore(text: string, separator: char, j: int)
    requires PieceAt(text, separator, 0, j)
    ensures forall m :: 0 <= m < j ==> text[m] != separator
  {
    forall m | 0 <= m < j ensures text[m] != separator {
      assert text[0..j][m] == text[m];
    }
  }

  lemma FirstIsUnique(text: string, separator: char, a: string, b: string)
    requires FirstPiece(text, separator, b)
    ensures FirstPiece(text, separator, a) ==> a == b
  {
    if FirstPiece(text, separator, a) {
      var j :| PieceAt(text, separator, 0, j) && text[..j] == a;
      var k :| PieceAt(text, separator, 0, k) && text[..k] == b;
      NoneBefore(text, separator, j);
      NoneBefore(text, separator, k);
    }
  }

  /** Splitting a text gives exactly its pieces. */
  lemma SplitMeans(text: string, separator: char, piece: string)
    ensures piece in SplitOn(text, separator) <==>
      exists i, j :: PieceAt(text, separator, i, j) && text[i..j] == piece
  {
    var pieces := SplitOn(text, separator);
    SplitPieces(text, separator);
    assert pieces == [pieces[0]] + pieces[1..];
    if i, j :| PieceAt(text, separator, i, j) && text[i..j] == piece {
      if i == 0 {
        assert text[..j] == text[i..j];
        FirstIsUnique(text, separator, piece, pieces[0]);
      } else {
        assert LaterPiece(text, separator, piece);
      }
    }
    if piece == pieces[0] {
      var j :| PieceAt(text, separator, 0, j) && text[..j] == piece;
      assert text[0..j] == piece;
    }
  }

  // ---------------------------------------------------------------- pointer laws

  lemma {:induction false} SplitPlain(token: string)
    requires '/' !in token
    ensures Split(token) == [token]
  {
    if token != "" {
      SplitPlain(token[1..]);
      assert [token[0]] + token[1..] == token;
      assert Split(token) == [[token[0]] + Split(token[1..])[0]] + Split(token[1..])[1..];
    }
  }

  lemma {:induction false} UnescapePlain(token: string)
    requires '~' !in token
    ensures Unescape(token) == token
  {
    if token != "" {
      UnescapePlain(token[1..]);
      assert [token[0]] + token[1..] == token;
    }
  }

  lemma {:induction false} SplitFirst(name: string, rest: string)
    requires '/' !in name && (rest == "" || rest[0] == '/')
    ensures Split(name + rest) == [name] + if rest == "" then [] else Split(rest[1..])
  {
    if rest == "" {
      assert name + rest == name;
      SplitPlain(name);
    } else if name == "" {
      assert name + rest == rest;
    } else {
      assert (name + rest)[0] == name[0] && (name + rest)[1..] == name[1..] + rest;
      SplitFirst(name[1..], rest);
      assert [name[0]] + name[1..] == name;
    }
  }

  lemma PointerTokens(doc: Json, name: string, rest: string)
    requires '/' !in name && '~' !in name && (rest == "" || rest[0] == '/')
    ensures Pointer(doc, "/" + name + rest) ==
      Walk(doc, [name] + if rest == "" then [] else Split(rest[1..]))
  {
    assert ("/" + name + rest)[1..] == name + rest && ("/" + name + rest)[0] == '/';
    SplitFirst(name, rest);
  }

  /** A pointer into an object goes to the named member, and on from there. */
  lemma PointerIntoObject(fields: map<string, Json>, name: string, rest: string)
    requires '/' !in name && '~' !in name && (rest == "" || rest[0] == '/')
    ensures Pointer(Obj(fields), "/" + name + rest) ==
      if name in fields then Pointer(fields[name], rest) else None
  {
    var tokens := if rest == "" then [] else Split(rest[1..]);
    PointerTokens(Obj(fields), name, rest);
    UnescapePlain(name);
    assert ([name] + tokens)[1..] == tokens;
  }

  lemma IndexReadsBack(i: nat)
    ensures ArrayIndex(Unescape(Decimal(i))) == Some(i) && '/' !in Decimal(i) && '~' !in Decimal(i)
  {
    DecimalHasNoLeadingZero(i);
    DecimalReadsBack(i);
    UnescapePlain(Decimal(i));
    hide Unescape;
  }

  lemma LastDigit(text: string) returns (front: string, digit: nat)
    requires text != "" && OnlyDigits(text)
    ensures |front| == |text| - 1 && OnlyDigits(front) && (front != "" ==> front[0] == text[0])
    ensures digit < 10 && text == front + [DIGITS[digit]]
    ensures Value(text) == 10 * Value(front) + digit
    ensures front == "" ==> Value(front) == 0 && (text[0] == '0' <==> digit == 0)
  {
    front, digit := text[..|text| - 1], (text[|text| - 1] - '0') as nat;
    DigitValue(digit);
    assert text == front + [text[|text| - 1]];
  }

  /** A numeral that does not begin with 0 is the numeral of its value. */
  lemma {:induction false} NumeralIsDecimal(text: string)
    requires text != "" && OnlyDigits(text) && (text[0] == '0' ==> |text| == 1)
    ensures text == Decimal(Value(text)) && (text[0] != '0' ==> Value(text) > 0)
    decreases |text|
  {
    hide Decimal;
    hide OnlyDigits;
    hide Value;
    var front, digit := LastDigit(text);
    if front == "" {
      DecimalGrows(0, digit);
    } else {
      NumeralIsDecimal(front);
      DecimalGrows(Value(front), digit);
    }
  }

  lemma DecimalGrows(front: nat, digit: nat)
    requires digit < 10
    ensures Decimal(10 * front + digit) == (if front == 0 then "" else Decimal(front)) + [DIGITS[digit]]
  {
    assert (10 * front + digit) / 10 == front && (10 * front + digit) % 10 == digit;
  }

  /** The index of a token is the number whose decimal numeral it is. */
  lemma ArrayIndexMeans(token: string, i: nat)
    ensures ArrayIndex(token) == Some(i) <==> token == Decimal(i)
  {
    DecimalHasNoLeadingZero(i);
    DecimalReadsBack(i);
    hide Decimal;
    if ArrayIndex(token) == Some(i) {
      DigitsMeans(token);
      NumeralIsDecimal(token);
    }
  }

  lemma WalkFirst(elems: seq<Json>, token: string, tokens: seq<string>, i: nat)
    requires ArrayIndex(Unescape(token)) == Some(i)
    ensures Walk(Arr(elems), [token] + tokens) == if i < |elems| then Walk(elems[i], tokens) else None
  {
    assert ([token] + tokens)[1..] == tokens;
    hide ArrayIndex;
    hide Unescape;
  }

  /** A pointer into an array goes to the numbered element, and on from there. */
  lemma PointerIntoArray(elems: seq<Json>, i: nat, rest: string)
    requires rest == "" || rest[0] == '/'
    ensures Pointer(Arr(elems), "/" + Decimal(i) + rest) ==
      if i < |elems| then Pointer(elems[i], rest) else None
  {
    var tokens := if rest == "" then [] else Split(rest[1..]);
    IndexReadsBack(i);
    hide Decimal;
    hide Split;
    PointerTokens(Arr(elems), Decimal(i), rest);
    WalkFirst(elems, Decimal(i), tokens, i);
  }

  /** How section 3 of RFC 6901 writes a name as a reference token. */
  function Escape(name: string): string {
    if name == "" then ""
    else (if name[0] == '/' then "~1" else if name[0] == '~' then "~0" else [name[0]]) + Escape(name[1..])
  }

  lemma {:induction false} EscapeIsUndone(name: string)
    ensures Unescape(Escape(name)) == name && '/' !in Escape(name)
  {
    if name != "" {
      EscapeIsUndone(name[1..]);
      var rest := Escape(name[1..]);
      assert [name[0]] + name[1..] == name;
      if name[0] == '/' {
        assert ("~1" + rest)[2..] == rest;
      } else if name[0] == '~' {
        assert ("~0" + rest)[2..] == rest;
      } else {
        assert ([name[0]] + rest)[1..] == rest;
      }
    }
  }

  /** Every member of an object is found under its escaped name. */
  lemma PointerFindsMember(fields: map<string, Json>, name: string)
    ensures Pointer(Obj(fields), "/" + Escape(name)) == if name in fields then Some(fields[name]) else None
  {
    var token := Escape(name);
    EscapeIsUndone(name);
    SplitPlain(token);
    hide Escape;
    hide Unescape;
    hide Split;
    assert ("/" + token)[1..] == token && [token][1..] == [];
    assert Walk(Obj(fields), [token]) == if name in fields then Walk(fields[name], []) else None;
  }

  /** A pointer of one plain name is member access. */
  lemma PlainPointer(doc: Json, name: string)
    requires doc.Obj? && '/' !in name && '~' !in name
    ensures Pointer(doc, "/" + name) == Get(doc, name)
  {
    assert "/" + name + "" == "/" + name;
    PointerIntoObject(doc.fields, name, "");
  }
}
