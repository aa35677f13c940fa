/**
 * JSON values and the text the standard encoder prints for them: keys sorted,
 * everything outside printable ASCII escaped (RFC 8259, sections 4, 5 and 7).
 * The text of a value is self-delimiting, so it tells the value.
 */
module JsonText {

  /** A number stands for its printed token. */
  datatype Json =
    | Null
    | Bool(b: bool)
    | Number(token: string)
    | String(s: string)
    | Array(items: seq<Json>)
    | Object(members: map<string, Json>)

  predicate NumberChar(c: char) {
    c in "0123456789+-.eENaInfity"
  }

  predicate NumberStart(c: char) {
    c in "0123456789-NI"
  }

  predicate NumberToken(t: string) {
    t != "" && NumberStart(t[0]) && forall c :: c in t ==> NumberChar(c)
  }

  /** Every number in a value is a number token. */
  predicate WellFormed(j: Json) {
    match j
    case Number(t) => NumberToken(t)
    case Array(items) => forall i :: 0 <= i < |items| ==> WellFormed(items[i])
    case Object(members) => forall k :: k in members ==> WellFormed(members[k])
    case _ => true
  }

  /******* Strings *******/

  function HexDigit(d: nat): (c: char)
    requires d < 16
    ensures c != '"'
  {
    if d < 10 then (48 + d) as char else (87 + d) as char
  }

  function Hex4(n: nat): (t: string)
    requires n < 0x10000
    ensures |t| == 4
  {
    [HexDigit(n / 0x1000), HexDigit(n / 0x100 % 16), HexDigit(n / 16 % 16), HexDigit(n % 16)]
  }

  function UnicodeEscape(n: nat): (t: string)
    requires n < 0x10000
    ensures |t| == 6 && t[..2] == "\\u" && t[2..] == Hex4(n)
  {
    "\\u" + Hex4(n)
  }

  function High(n: nat): nat
    requires 0x10000 <= n < 0x110000
  {
    0xd800 + (n - 0x10000) / 0x400
  }

  function Low(n: nat): nat
    requires 0x10000 <= n < 0x110000
  {
    0xdc00 + (n - 0x10000) % 0x400
  }

  /** The escapes of one character; a character beyond the first plane is printed as a surrogate pair. */
  function Escape(c: char): (t: string)
    ensures t != ""
  {
    if c == '"' then "\\\""
    else if c == '\\' then "\\\\"
    else if c == '\n' then "\\n"
    else if c == '\r' then "\\r"
    else if c == '\t' then "\\t"
    else if c as int == 12 then "\\f"
    else if c as int == 8 then "\\b"
    else if ' ' <= c <= '~' then [c]
    else if c as int < 0x10000 then UnicodeEscape(c as int)
    else UnicodeEscape(High(c as int)) + UnicodeEscape(Low(c as int))
  }

  /** The rest of a string from position `n` on, and its closing quote. */
  function StringTail(s: string, n: nat): (t: string)
    requires n <= |s|
    ensures t != ""
    decreases |s| - n
  {
    if n == |s| then "\"" else Escape(s[n]) + StringTail(s, n + 1)
  }

  function StringText(s: string): string {
    "\"" + StringTail(s, 0)
  }

  /******* Sorted keys *******/

  /** The order of strings by code points. */
  predicate Less(a: string, b: string) {
    b != "" && (a == "" || a[0] < b[0] || (a[0] == b[0] && Less(a[1..], b[1..])))
  }

  lemma {:induction false} LessIsTotal(a: string, b: string)
    ensures a == b || Less(a, b) || Less(b, a)
  {
    if a != "" && b != "" && a[0] == b[0] {
      LessIsTotal(a[1..], b[1..]);
      assert a == [a[0]] + a[1..] && b == [b[0]] + b[1..];
    }
  }

  lemma {:induction false} LessIsTransitive(a: string, b: string, c: string)
    requires Less(a, b) && Less(b, c)
    ensures Less(a, c)
  {
    if a != "" && a[0] == b[0] == c[0] {
      LessIsTransitive(a[1..], b[1..], c[1..]);
    }
  }

  lemma SameFirst(a: string, b: string, n: nat)
    requires 0 < n <= |a| && n <= |b| && a[..n] == b[..n]
    ensures a[0] == b[0]
  {
    assert a[..n][0] == b[..n][0];
  }

  /** Smaller at the first difference, or a proper prefix. */
  lemma {:induction false} LessExactlyWhen(a: string, b: string)
    ensures Less(a, b) <==> exists n: nat :: n <= |a| && n < |b| && a[..n] == b[..n] && (n == |a| || a[n] < b[n])
  {
    if a == "" || b == "" || a[0] != b[0] {
      if Less(a, b) {
        assert a[..0] == b[..0];
      }
      if n: nat :| n <= |a| && n < |b| && a[..n] == b[..n] && (n == |a| || a[n] < b[n]) {
        if n > 0 {
          SameFirst(a, b, n);
        }
      }
    } else {
      LessExactlyWhen(a[1..], b[1..]);
      if n: nat :| n <= |a[1..]| && n < |b[1..]| && a[1..][..n] == b[1..][..n]
                   && (n == |a[1..]| || a[1..][n] < b[1..][n]) {
        assert a[..n + 1] == [a[0]] + a[1..][..n] && b[..n + 1] == [b[0]] + b[1..][..n];
      }
      if n: nat :| n <= |a| && n < |b| && a[..n] == b[..n] && (n == |a| || a[n] < b[n]) {
        assert n > 0;
        assert a[1..][..n - 1] == a[..n][1..] && b[1..][..n - 1] == b[..n][1..];
      }
    }
  }

  ghost predicate IsFirst(k: string, keys: set<string>) {
    k in keys && forall o :: o in keys && o != k ==> Less(k, o)
  }

  lemma {:induction false} FirstExists(keys: set<string>)
    requires keys != {}
    ensures exists k :: IsFirst(k, keys)
    decreases |keys|
  {
    var x :| x in keys;
    if keys == {x} {
      assert IsFirst(x, keys);
    } else {
      assert keys - {x} != {};
      FirstExists(keys - {x});
      var y :| IsFirst(y, keys - {x});
      LessIsTotal(x, y);
      if Less(x, y) {
        forall o | o in keys && o != x
          ensures Less(x, o)
        {
          if o != y {
            LessIsTransitive(x, y, o);
          }
        }
        assert IsFirst(x, keys);
      } else {
        assert IsFirst(y, keys);
      }
    }
  }

  /** `sorted(keys)`. */
  ghost function SortedKeys(keys: set<string>): (sorted: seq<string>)
    ensures forall k :: k in sorted <==> k in keys
    ensures |sorted| == |keys|
    decreases |keys|
  {
    if keys == {} then []
    else
      FirstExists(keys);
      var k :| IsFirst(k, keys);
      [k] + SortedKeys(keys - {k})
  }

  lemma {:induction false} SortedKeysAscend(keys: set<string>, i: nat, j: nat)
    requires i < j < |keys|
    ensures Less(SortedKeys(keys)[i], SortedKeys(keys)[j])
    decreases |keys|
  {
    var sorted := SortedKeys(keys);
    var k := sorted[0];
    FirstExists(keys);
    assert IsFirst(k, keys);
    assert sorted[1..] == SortedKeys(keys - {k});
    if i == 0 {
      assert sorted[j] == sorted[1..][j - 1] && sorted[j] in SortedKeys(keys - {k});
    } else {
      SortedKeysAscend(keys - {k}, i - 1, j - 1);
    }
  }

  /******* Values *******/

  /** The text of a value. */
  ghost function Text(j: Json): string
    decreases j, 2
  {
    match j
    case Null => "null"
    case Bool(b) => if b then "true" else "false"
    case Number(t) => t
    case String(s) => StringText(s)
    case Array(items) => "[" + ItemsTail(j, 0)
    case Object(members) => "{" + MembersTail(j, SortedKeys(members.Keys), 0)
  }

  /** The rest of an array from item `n` on, and its closing bracket. */
  ghost function ItemsTail(j: Json, n: nat): string
    requires j.Array? && n <= |j.items|
    decreases j, 1, |j.items| - n
  {
    if n == |j.items| then "]"
    else (if n > 0 then ", " else "") + Text(j.items[n]) + ItemsTail(j, n + 1)
  }

  /** The rest of an object from key `n` on, and its closing brace. */
  ghost function MembersTail(j: Json, keys: seq<string>, n: nat): string
    requires j.Object? && n <= |keys| && forall k :: k in keys ==> k in j.members
    decreases j, 1, |keys| - n
  {
    if n == |keys| then "}"
    else
      (if n > 0 then ", " else "") + StringText(keys[n]) + ": " + Text(j.members[keys[n]])
      + MembersTail(j, keys, n + 1)
  }

  /******* The texts spelled out *******/

  lemma SimpleTexts(t: string)
    ensures Text(Null) == "null" && Text(Bool(true)) == "true" && Text(Bool(false)) == "false" && Text(Number(t)) == t
  {
  }

  lemma EmptyTexts()
    ensures Text(Array([])) == "[]" && Text(Object(map[])) == "{}"
  {
    assert SortedKeys({}) == [];
    var none: map<string, Json> := map[];
    assert none.Keys == {};
  }

  lemma Regroup(a: string, b: string, x: string)
    ensures (a + b) + x == a + (b + x)
  {
  }

  /** Texts separated by a comma and a space. */
  function Joined(texts: seq<string>): string
    requires texts != []
  {
    if |texts| == 1 then texts[0] else texts[0] + ", " + Joined(texts[1..])
  }

  ghost function ItemTexts(items: seq<Json>): (texts: seq<string>)
    ensures |texts| == |items| && forall i :: 0 <= i < |items| ==> texts[i] == Text(items[i])
  {
    seq(|items|, i requires 0 <= i < |items| => Text(items[i]))
  }

  lemma JoinLast(sep: string, own: string, tail: string, close: string, rest: seq<string>)
    requires rest == [own] && tail == close
    ensures sep + own + tail == sep + Joined(rest) + close
  {
  }

  lemma JoinMore(sep: string, own: string, tail: string, close: string, rest: seq<string>)
    requires |rest| > 1 && rest[0] == own && tail == ", " + Joined(rest[1..]) + close
    ensures sep + own + tail == sep + Joined(rest) + close
  {
    var more := Joined(rest[1..]);
    Regroup(sep, own, ", " + more + close);
    Regroup(", ", more, close);
    Regroup(own, ", ", more + close);
    Regroup(own + ", ", more, close);
    Regroup(sep, Joined(rest), close);
    assert Joined(rest) == (own + ", ") + more;
  }

  lemma {:induction false} ItemsJoin(j: Json, n: nat)
    requires j.Array? && n < |j.items|
    ensures ItemsTail(j, n) == (if n > 0 then ", " else "") + Joined(ItemTexts(j.items)[n..]) + "]"
    decreases |j.items| - n
  {
    var sep, texts := if n > 0 then ", " else "", ItemTexts(j.items);
    if n + 1 < |j.items| {
      ItemsJoin(j, n + 1);
      assert texts[n..][1..] == texts[n + 1..];
      JoinMore(sep, Text(j.items[n]), ItemsTail(j, n + 1), "]", texts[n..]);
    } else {
      assert texts[n..] == [Text(j.items[n])];
      JoinLast(sep, Text(j.items[n]), ItemsTail(j, n + 1), "]", texts[n..]);
    }
  }

  lemma ArrayText(items: seq<Json>)
    requires items != []
    ensures Text(Array(items)) == "[" + Joined(ItemTexts(items)) + "]"
  {
    ItemsJoin(Array(items), 0);
    assert ItemTexts(items)[0..] == ItemTexts(items);
    assert ItemsTail(Array(items), 0) == Joined(ItemTexts(items)) + "]";
  }

  ghost function MemberTexts(members: map<string, Json>, keys: seq<string>): (texts: seq<string>)
    requires forall k :: k in keys ==> k in members
    ensures |texts| == |keys|
    ensures forall i :: 0 <= i < |keys| ==> texts[i] == StringText(keys[i]) + ": " + Text(members[keys[i]])
  {
    seq(|keys|, i requires 0 <= i < |keys| => StringText(keys[i]) + ": " + Text(members[keys[i]]))
  }

  lemma MemberFirst(j: Json, keys: seq<string>, n: nat)
    requires j.Object? && n < |keys| && forall k :: k in keys ==> k in j.members
    ensures MembersTail(j, keys, n)
         == (if n > 0 then ", " else "") + (StringText(keys[n]) + ": " + Text(j.members[keys[n]]))
            + MembersTail(j, keys, n + 1)
  {
    var sep, k, x := if n > 0 then ", " else "", StringText(keys[n]), Text(j.members[keys[n]]);
    Regroup(sep, k, ": ");
    Regroup(sep, k + ": ", x);
  }

  lemma {:induction false} MembersJoin(j: Json, keys: seq<string>, n: nat)
    requires j.Object? && n < |keys| && forall k :: k in keys ==> k in j.members
    ensures MembersTail(j, keys, n) == (if n > 0 then ", " else "") + Joined(MemberTexts(j.members, keys)[n..]) + "}"
    decreases |keys| - n
  {
    var sep, texts := if n > 0 then ", " else "", MemberTexts(j.members, keys);
    MemberFirst(j, keys, n);
    if n + 1 < |keys| {
      MembersJoin(j, keys, n + 1);
      assert texts[n..][1..] == texts[n + 1..];
      JoinMore(sep, texts[n], MembersTail(j, keys, n + 1), "}", texts[n..]);
    } else {
      assert texts[n..] == [texts[n]];
      JoinLast(sep, texts[n], MembersTail(j, keys, n + 1), "}", texts[n..]);
    }
  }

  lemma SomeKeys(keys: set<string>)
    requires keys != {}
    ensures SortedKeys(keys) != []
  {
    var k :| k in keys;
    assert k in SortedKeys(keys);
  }

  lemma OpenedObject(members: map<string, Json>)
    ensures Text(Object(members)) == "{" + MembersTail(Object(members), SortedKeys(members.Keys), 0)
  {
  }

  lemma MembersText(members: map<string, Json>, keys: seq<string>)
    requires keys != [] && forall k :: k in keys ==> k in members
    ensures MembersTail(Object(members), keys, 0) == Joined(MemberTexts(members, keys)) + "}"
  {
    MembersJoin(Object(members), keys, 0);
    assert MemberTexts(members, keys)[0..] == MemberTexts(members, keys);
    assert "" + Joined(MemberTexts(members, keys)) == Joined(MemberTexts(members, keys));
  }

  lemma ObjectText(members: map<string, Json>)
    requires members.Keys != {}
    ensures SortedKeys(members.Keys) != []
    ensures Text(Object(members)) == "{" + (Joined(MemberTexts(members, SortedKeys(members.Keys))) + "}")
  {
    SomeKeys(members.Keys);
    OpenedObject(members);
    MembersText(members, SortedKeys(members.Keys));
  }

  lemma {:induction false} PlainTail(s: string, n: nat)
    requires n <= |s| && forall c :: c in s ==> ' ' <= c <= '~' && c != '"' && c != '\\'
    ensures StringTail(s, n) == s[n..] + "\""
    decreases |s| - n
  {
    if n < |s| {
      PlainTail(s, n + 1);
      assert s[n] in s;
      assert s[n..] == [s[n]] + s[n + 1..];
    }
  }

  /** Printable ASCII stands for itself, but for the quote and the backslash. */
  lemma PlainText(s: string)
    requires forall c :: c in s ==> ' ' <= c <= '~' && c != '"' && c != '\\'
    ensures Text(String(s)) == "\"" + s + "\""
  {
    PlainTail(s, 0);
    assert s[0..] == s;
  }

  function HexDigits(): string {
    "0123456789abcdef"
  }

  lemma LettersSpelled()
    ensures Escape('"') == "\\\"" && Escape('\\') == "\\\\" && Escape('\n') == "\\n" && Escape('\r') == "\\r"
    ensures Escape('\t') == "\\t" && Escape(12 as char) == "\\f" && Escape(8 as char) == "\\b"
  {
  }

  lemma DigitSpelled(d: nat)
    requires d < 16
    ensures HexDigit(d) == HexDigits()[d]
  {
  }

  lemma HexSpelled(n: nat)
    requires n < 0x10000
    ensures var x := HexDigits(); Hex4(n) == [x[n / 0x1000], x[n / 0x100 % 16], x[n / 16 % 16], x[n % 16]]
  {
    DigitSpelled(n / 0x1000);
    DigitSpelled(n / 0x100 % 16);
    DigitSpelled(n / 16 % 16);
    DigitSpelled(n % 16);
  }

  /** Control characters without a letter, and all from code 127 on, by the four hexadecimal digits of the code. */
  lemma EscapesSpelled(c: char)
    requires (c as int < 32 && c as int !in {8, 9, 10, 12, 13}) || 127 <= c as int < 0x10000
    ensures var n, x := c as int, HexDigits();
            Escape(c) == "\\u" + [x[n / 0x1000], x[n / 0x100 % 16], x[n / 16 % 16], x[n % 16]]
  {
    HexSpelled(c as int);
    assert Escape(c) == UnicodeEscape(c as int);
  }

  /** Beyond the first plane a character is printed as a high and a low surrogate that add up to its code. */
  lemma SurrogatesSpelled(c: char)
    requires c as int >= 0x10000
    ensures exists h: nat, l: nat ::
              && 0xd800 <= h < 0xdc00 <= l < 0xe000 && 0x10000 + (h - 0xd800) * 0x400 + (l - 0xdc00) == c as int
              && Escape(c) == "\\u" + Hex4(h) + "\\u" + Hex4(l)
  {
    var n := c as int;
    var h, l := High(n), Low(n);
    assert Escape(c) == UnicodeEscape(h) + UnicodeEscape(l);
    assert UnicodeEscape(h) + UnicodeEscape(l) == "\\u" + Hex4(h) + "\\u" + Hex4(l);
  }

  /******* Reading the text back *******/

  lemma SplitAt(a: string, x: string, b: string, y: string)
    requires a + x == b + y && |a| == |b|
    ensures a == b && x == y
  {
    assert a == (a + x)[..|a|] && b == (b + y)[..|b|];
    assert x == (a + x)[|a|..] && y == (b + y)[|b|..];
  }

  lemma SameHead(a: string, x: string, b: string, y: string)
    requires a + x == b + y && a != "" && b != ""
    ensures a[0] == b[0]
  {
    assert (a + x)[0] == a[0] && (b + y)[0] == b[0];
  }

  lemma SameSlice(a: string, x: string, b: string, y: string, i: nat, j: nat)
    requires a + x == b + y && i <= j <= |a| && j <= |b|
    ensures a[i..j] == b[i..j]
  {
    assert (a + x)[i..j] == a[i..j] && (b + y)[i..j] == b[i..j];
  }

  lemma HexDigitTells(d: nat, e: nat)
    requires d < 16 && e < 16 && HexDigit(d) == HexDigit(e)
    ensures d == e
  {
  }

  lemma FromDigits(n: nat)
    requires n < 0x10000
    ensures n == 0x1000 * (n / 0x1000) + 0x100 * (n / 0x100 % 16) + 16 * (n / 16 % 16) + n % 16
  {
    assert n / 16 == 16 * (n / 16 / 16) + n / 16 % 16;
    assert n / 0x100 == 16 * (n / 0x100 / 16) + n / 0x100 % 16;
    assert n / 16 / 16 == n / 0x100 && n / 0x100 / 16 == n / 0x1000;
  }

  lemma DigitsTell(m: nat, n: nat)
    requires m < 0x10000 && n < 0x10000
    requires m / 0x1000 == n / 0x1000 && m / 0x100 % 16 == n / 0x100 % 16
    requires m / 16 % 16 == n / 16 % 16 && m % 16 == n % 16
    ensures m == n
  {
    FromDigits(m);
    FromDigits(n);
  }

  lemma Hex4Tells(m: nat, n: nat)
    requires m < 0x10000 && n < 0x10000 && Hex4(m) == Hex4(n)
    ensures m == n
  {
    var a, b := Hex4(m), Hex4(n);
    assert a[0] == b[0] && a[1] == b[1] && a[2] == b[2] && a[3] == b[3];
    HexDigitTells(m / 0x1000, n / 0x1000);
    HexDigitTells(m / 0x100 % 16, n / 0x100 % 16);
    HexDigitTells(m / 16 % 16, n / 16 % 16);
    HexDigitTells(m % 16, n % 16);
    DigitsTell(m, n);
  }

  lemma SurrogatesTell(m: nat, n: nat)
    requires 0x10000 <= m < 0x110000 && 0x10000 <= n < 0x110000 && High(m) == High(n) && Low(m) == Low(n)
    ensures m == n
  {
  }

  predicate Shown(c: char) {
    ' ' <= c <= '~' && c != '"' && c != '\\'
  }

  /** The letter after the backslash. */
  function Letter(c: char): char {
    if c == '"' then '"'
    else if c == '\\' then '\\'
    else if c == '\n' then 'n'
    else if c == '\r' then 'r'
    else if c == '\t' then 't'
    else if c as int == 12 then 'f'
    else if c as int == 8 then 'b'
    else 'u'
  }

  /** The first escape of a character that is not shown as it is. */
  function FirstUnit(c: char): nat {
    if c as int < 0x10000 then c as int else High(c as int)
  }

  /** All that telling characters apart needs of their escapes. */
  ghost predicate Escapes(c: char, t: string) {
    if Shown(c) then t == [c]
    else
      && |t| >= 2 && t[0] == '\\' && t[1] == Letter(c)
      && (Letter(c) != 'u' ==> |t| == 2)
      && (Letter(c) == 'u' ==> |t| == (if c as int < 0x10000 then 6 else 12) && t[2..6] == Hex4(FirstUnit(c)))
      && (Letter(c) == 'u' && c as int >= 0x10000 ==> t[8..12] == Hex4(Low(c as int)))
  }

  lemma EscapeEscapes(c: char)
    ensures Escapes(c, Escape(c))
  {
  }

  lemma LetterTells(c: char, d: char)
    requires Letter(c) == Letter(d) && Letter(c) != 'u'
    ensures c == d
  {
  }

  lemma LongEscapesTell(c: char, e: string, x: string, d: char, f: string, y: string)
    requires !Shown(c) && !Shown(d) && Letter(c) == 'u' && Letter(d) == 'u'
    requires Escapes(c, e) && Escapes(d, f) && e + x == f + y
    ensures c == d
  {
    SameSlice(e, x, f, y, 2, 6);
    Hex4Tells(FirstUnit(c), FirstUnit(d));
    if c as int >= 0x10000 && d as int >= 0x10000 {
      SameSlice(e, x, f, y, 8, 12);
      Hex4Tells(Low(c as int), Low(d as int));
      SurrogatesTell(c as int, d as int);
    }
  }

  lemma EscapesTell(c: char, e: string, x: string, d: char, f: string, y: string)
    requires Escapes(c, e) && Escapes(d, f) && e + x == f + y
    ensures c == d
  {
    SameHead(e, x, f, y);
    if !Shown(c) && !Shown(d) {
      SameSlice(e, x, f, y, 1, 2);
      assert e[1..2][0] == f[1..2][0];
      if Letter(c) == 'u' {
        LongEscapesTell(c, e, x, d, f, y);
      } else {
        LetterTells(c, d);
      }
    }
  }

  lemma EscapeTells(c: char, x: string, d: char, y: string)
    requires Escape(c) + x == Escape(d) + y
    ensures c == d && x == y
  {
    EscapeEscapes(c);
    EscapeEscapes(d);
    EscapesTell(c, Escape(c), x, d, Escape(d), y);
    SplitAt(Escape(c), x, Escape(d), y);
  }

  lemma EscapeIsNoQuote(c: char)
    ensures Escape(c)[0] != '"'
  {
    EscapeEscapes(c);
  }

  lemma StringTailStep(s: string, i: nat, x: string)
    requires i < |s|
    ensures StringTail(s, i) + x == Escape(s[i]) + (StringTail(s, i + 1) + x)
  {
    Regroup(Escape(s[i]), StringTail(s, i + 1), x);
  }

  lemma QuoteEnds(s: string, i: nat)
    requires i <= |s|
    ensures StringTail(s, i)[0] == '"' <==> i == |s|
  {
    if i < |s| {
      EscapeIsNoQuote(s[i]);
      assert StringTail(s, i)[0] == Escape(s[i])[0];
    }
  }

  lemma SameFrom(s: string, i: nat, t: string, k: nat)
    requires i < |s| && k < |t| && s[i] == t[k] && s[i + 1..] == t[k + 1..]
    ensures s[i..] == t[k..]
  {
    assert s[i..] == [s[i]] + s[i + 1..] && t[k..] == [t[k]] + t[k + 1..];
  }

  lemma {:induction false} StringTailTells(s: string, i: nat, x: string, t: string, k: nat, y: string)
    requires i <= |s| && k <= |t| && StringTail(s, i) + x == StringTail(t, k) + y
    ensures s[i..] == t[k..] && x == y
    decreases |s| - i
  {
    SameHead(StringTail(s, i), x, StringTail(t, k), y);
    QuoteEnds(s, i);
    QuoteEnds(t, k);
    if i == |s| {
      SplitAt(StringTail(s, i), x, StringTail(t, k), y);
    } else {
      StringTailStep(s, i, x);
      StringTailStep(t, k, y);
      EscapeTells(s[i], StringTail(s, i + 1) + x, t[k], StringTail(t, k + 1) + y);
      StringTailTells(s, i + 1, x, t, k + 1, y);
      SameFrom(s, i, t, k);
    }
  }

  lemma StringTells(s: string, x: string, t: string, y: string)
    requires StringText(s) + x == StringText(t) + y
    ensures s == t && x == y
  {
    Regroup("\"", StringTail(s, 0), x);
    Regroup("\"", StringTail(t, 0), y);
    SplitAt("\"", StringTail(s, 0) + x, "\"", StringTail(t, 0) + y);
    StringTailTells(s, 0, x, t, 0, y);
    assert s[0..] == s && t[0..] == t;
  }

  /** Text that cannot continue a number. */
  predicate Ends(x: string) {
    x == "" || !NumberChar(x[0])
  }

  lemma NextChar(t: string, x: string, u: string, y: string)
    requires t + x == u + y && |t| < |u|
    ensures x != "" && x[0] in u
  {
    assert |t + x| == |u + y|;
    assert (t + x)[|t|] == x[0] && (u + y)[|t|] == u[|t|];
  }

  lemma NumberIsNotLonger(t: string, x: string, u: string, y: string)
    requires NumberToken(t) && NumberToken(u) && Ends(x) && t + x == u + y
    ensures |t| >= |u|
  {
    if |t| < |u| {
      NextChar(t, x, u, y);
      assert false;
    }
  }

  lemma NumberTells(t: string, x: string, u: string, y: string)
    requires NumberToken(t) && NumberToken(u) && Ends(x) && Ends(y) && t + x == u + y
    ensures t == u && x == y
  {
    NumberIsNotLonger(t, x, u, y);
    NumberIsNotLonger(u, y, t, x);
    SplitAt(t, x, u, y);
  }

  /** What a text of a value begins with. */
  ghost predicate Heads(j: Json, c: char) {
    match j
    case Null => c == 'n'
    case Bool(b) => c == if b then 't' else 'f'
    case Number(_) => NumberStart(c)
    case String(_) => c == '"'
    case Array(_) => c == '['
    case Object(_) => c == '{'
  }

  lemma TextHead(j: Json)
    requires WellFormed(j)
    ensures Text(j) != "" && Heads(j, Text(j)[0])
  {
  }

  lemma HeadsTell(a: Json, b: Json, c: char)
    requires Heads(a, c) && Heads(b, c)
    ensures a.Null? == b.Null? && a.Bool? == b.Bool? && a.Number? == b.Number? && a.String? == b.String?
    ensures a.Array? == b.Array? && a.Object? == b.Object?
    ensures a.Bool? ==> a == b
    ensures c != ']' && c != '}' && c != ',' && c != ' '
  {
  }

  lemma ItemsHead(j: Json, n: nat)
    requires WellFormed(j) && j.Array? && n <= |j.items|
    ensures ItemsTail(j, n) != "" && (ItemsTail(j, n)[0] == ']' <==> n == |j.items|)
    ensures n > 0 ==> Ends(ItemsTail(j, n))
  {
    if n < |j.items| {
      TextHead(j.items[n]);
      HeadsTell(j.items[n], j.items[n], Text(j.items[n])[0]);
      if n == 0 {
        assert ItemsTail(j, n)[0] == Text(j.items[n])[0];
      }
    }
  }

  lemma MembersHead(j: Json, keys: seq<string>, n: nat)
    requires j.Object? && n <= |keys| && forall k :: k in keys ==> k in j.members
    ensures MembersTail(j, keys, n) != "" && (MembersTail(j, keys, n)[0] == '}' <==> n == |keys|)
    ensures n > 0 ==> Ends(MembersTail(j, keys, n))
  {
  }

  function Separator(n: nat): string {
    if n > 0 then ", " else ""
  }

  lemma ItemsStep(j: Json, n: nat, x: string)
    requires j.Array? && n < |j.items|
    ensures ItemsTail(j, n) + x == Separator(n) + (Text(j.items[n]) + (ItemsTail(j, n + 1) + x))
  {
    var t, rest := Text(j.items[n]), ItemsTail(j, n + 1);
    Regroup(Separator(n) + t, rest, x);
    Regroup(Separator(n), t, rest + x);
  }

  lemma MembersStep(j: Json, keys: seq<string>, n: nat, x: string)
    requires j.Object? && n < |keys| && forall k :: k in keys ==> k in j.members
    ensures MembersTail(j, keys, n) + x
         == Separator(n)
            + (StringText(keys[n]) + (": " + (Text(j.members[keys[n]]) + (MembersTail(j, keys, n + 1) + x))))
  {
    var k, t, rest := StringText(keys[n]), Text(j.members[keys[n]]), MembersTail(j, keys, n + 1);
    Regroup(Separator(n) + k + ": " + t, rest, x);
    Regroup(Separator(n) + k + ": ", t, rest + x);
    Regroup(Separator(n) + k, ": ", t + (rest + x));
    Regroup(Separator(n), k, ": " + (t + (rest + x)));
  }

  lemma EndsFurther(a: string, x: string)
    requires a != "" && Ends(a)
    ensures Ends(a + x)
  {
    assert (a + x)[0] == a[0];
  }

  lemma SameMembers(a: Json, ka: seq<string>, b: Json, kb: seq<string>)
    requires a.Object? && b.Object? && ka[0..] == kb[0..]
    requires forall k :: k in ka <==> k in a.members
    requires forall k :: k in kb <==> k in b.members
    requires forall i :: 0 <= i < |ka| ==> ka[i] in b.members && a.members[ka[i]] == b.members[ka[i]]
    ensures a == b
  {
    assert ka == ka[0..] && kb == kb[0..];
    assert a.members.Keys == b.members.Keys;
    forall k | k in a.members
      ensures a.members[k] == b.members[k]
    {
      var i :| 0 <= i < |ka| && ka[i] == k;
    }
    assert a.members == b.members;
  }

  /**
   * The text of a value is self-delimiting: whatever follows it - short of more of a
   * number - the text tells the value, and where it ends.
   */
  lemma {:induction false} TextTells(a: Json, x: string, b: Json, y: string)
    requires WellFormed(a) && WellFormed(b) && Ends(x) && Ends(y) && Text(a) + x == Text(b) + y
    ensures a == b && x == y
    decreases a, 2
  {
    TextHead(a);
    TextHead(b);
    SameHead(Text(a), x, Text(b), y);
    HeadsTell(a, b, Text(a)[0]);
    match a {
      case Null => SplitAt(Text(a), x, Text(b), y);
      case Bool(_) => SplitAt(Text(a), x, Text(b), y);
      case Number(t) => NumberTells(t, x, b.token, y);
      case String(s) => StringTells(s, x, b.s, y);
      case Array(items) =>
        Regroup("[", ItemsTail(a, 0), x);
        Regroup("[", ItemsTail(b, 0), y);
        SplitAt("[", ItemsTail(a, 0) + x, "[", ItemsTail(b, 0) + y);
        ItemsTell(a, x, b, y, 0);
        assert a.items[0..] == a.items && b.items[0..] == b.items;
      case Object(members) =>
        var ka, kb := SortedKeys(a.members.Keys), SortedKeys(b.members.Keys);
        Regroup("{", MembersTail(a, ka, 0), x);
        Regroup("{", MembersTail(b, kb, 0), y);
        SplitAt("{", MembersTail(a, ka, 0) + x, "{", MembersTail(b, kb, 0) + y);
        MembersTell(a, ka, x, b, kb, y, 0);
        SameMembers(a, ka, b, kb);
    }
  }

  lemma ItemTells(a: Json, x: string, b: Json, y: string, n: nat)
    requires a.Array? && b.Array? && n < |a.items| && n < |b.items|
    requires ItemsTail(a, n) + x == ItemsTail(b, n) + y
    ensures Text(a.items[n]) + (ItemsTail(a, n + 1) + x) == Text(b.items[n]) + (ItemsTail(b, n + 1) + y)
  {
    ItemsStep(a, n, x);
    ItemsStep(b, n, y);
    SplitAt(Separator(n), Text(a.items[n]) + (ItemsTail(a, n + 1) + x),
            Separator(n), Text(b.items[n]) + (ItemsTail(b, n + 1) + y));
  }

  lemma ItemsEndTogether(a: Json, x: string, b: Json, y: string, n: nat)
    requires WellFormed(a) && WellFormed(b) && a.Array? && b.Array? && n <= |a.items| && n <= |b.items|
    requires ItemsTail(a, n) + x == ItemsTail(b, n) + y
    ensures n == |a.items| <==> n == |b.items|
    ensures n == |a.items| ==> x == y
  {
    ItemsHead(a, n);
    ItemsHead(b, n);
    SameHead(ItemsTail(a, n), x, ItemsTail(b, n), y);
    if n == |a.items| {
      SplitAt(ItemsTail(a, n), x, ItemsTail(b, n), y);
    }
  }

  lemma ItemsGoOn(j: Json, n: nat, x: string)
    requires WellFormed(j) && j.Array? && 0 < n <= |j.items|
    ensures Ends(ItemsTail(j, n) + x)
  {
    ItemsHead(j, n);
    EndsFurther(ItemsTail(j, n), x);
  }

  lemma SameItemsFrom(a: seq<Json>, b: seq<Json>, n: nat)
    requires n < |a| && n < |b| && a[n] == b[n] && a[n + 1..] == b[n + 1..]
    ensures a[n..] == b[n..]
  {
    assert a[n..] == [a[n]] + a[n + 1..] && b[n..] == [b[n]] + b[n + 1..];
  }

  lemma {:induction false} ItemsTell(a: Json, x: string, b: Json, y: string, n: nat)
    requires WellFormed(a) && WellFormed(b) && a.Array? && b.Array? && n <= |a.items| && n <= |b.items|
    requires ItemsTail(a, n) + x == ItemsTail(b, n) + y
    ensures a.items[n..] == b.items[n..] && x == y
    decreases a, 1, |a.items| - n
  {
    ItemsEndTogether(a, x, b, y, n);
    if n < |a.items| {
      ItemTells(a, x, b, y, n);
      ItemsGoOn(a, n + 1, x);
      ItemsGoOn(b, n + 1, y);
      TextTells(a.items[n], ItemsTail(a, n + 1) + x, b.items[n], ItemsTail(b, n + 1) + y);
      ItemsTell(a, x, b, y, n + 1);
      SameItemsFrom(a.items, b.items, n);
    }
  }

  lemma MemberTells(a: Json, ka: seq<string>, x: string, b: Json, kb: seq<string>, y: string, n: nat)
    requires a.Object? && b.Object? && n < |ka| && n < |kb|
    requires (forall k :: k in ka ==> k in a.members) && forall k :: k in kb ==> k in b.members
    requires MembersTail(a, ka, n) + x == MembersTail(b, kb, n) + y
    ensures ka[n] == kb[n]
    ensures Text(a.members[ka[n]]) + (MembersTail(a, ka, n + 1) + x)
         == Text(b.members[kb[n]]) + (MembersTail(b, kb, n + 1) + y)
  {
    MembersStep(a, ka, n, x);
    MembersStep(b, kb, n, y);
    var va := Text(a.members[ka[n]]) + (MembersTail(a, ka, n + 1) + x);
    var vb := Text(b.members[kb[n]]) + (MembersTail(b, kb, n + 1) + y);
    SplitAt(Separator(n), StringText(ka[n]) + (": " + va), Separator(n), StringText(kb[n]) + (": " + vb));
    StringTells(ka[n], ": " + va, kb[n], ": " + vb);
    SplitAt(": ", va, ": ", vb);
  }

  lemma MembersEndTogether(a: Json, ka: seq<string>, x: string, b: Json, kb: seq<string>, y: string, n: nat)
    requires a.Object? && b.Object? && n <= |ka| && n <= |kb|
    requires (forall k :: k in ka ==> k in a.members) && forall k :: k in kb ==> k in b.members
    requires MembersTail(a, ka, n) + x == MembersTail(b, kb, n) + y
    ensures n == |ka| <==> n == |kb|
    ensures n == |ka| ==> x == y
  {
    MembersHead(a, ka, n);
    MembersHead(b, kb, n);
    SameHead(MembersTail(a, ka, n), x, MembersTail(b, kb, n), y);
    if n == |ka| {
      SplitAt(MembersTail(a, ka, n), x, MembersTail(b, kb, n), y);
    }
  }

  lemma MembersGoOn(j: Json, keys: seq<string>, n: nat, x: string)
    requires j.Object? && 0 < n <= |keys| && forall k :: k in keys ==> k in j.members
    ensures Ends(MembersTail(j, keys, n) + x)
  {
    MembersHead(j, keys, n);
    EndsFurther(MembersTail(j, keys, n), x);
  }

  lemma SameKeysFrom(ka: seq<string>, kb: seq<string>, n: nat)
    requires n < |ka| && n < |kb| && ka[n] == kb[n] && ka[n + 1..] == kb[n + 1..]
    ensures ka[n..] == kb[n..]
  {
    assert ka[n..] == [ka[n]] + ka[n + 1..] && kb[n..] == [kb[n]] + kb[n + 1..];
  }

  lemma {:induction false} MembersTell(a: Json, ka: seq<string>, x: string, b: Json, kb: seq<string>, y: string, n: nat)
    requires WellFormed(a) && WellFormed(b) && a.Object? && b.Object? && n <= |ka| && n <= |kb|
    requires (forall k :: k in ka ==> k in a.members) && forall k :: k in kb ==> k in b.members
    requires MembersTail(a, ka, n) + x == MembersTail(b, kb, n) + y
    ensures ka[n..] == kb[n..] && x == y
    ensures forall i :: n <= i < |ka| ==> ka[i] in b.members && a.members[ka[i]] == b.members[ka[i]]
    decreases a, 1, |ka| - n
  {
    MembersEndTogether(a, ka, x, b, kb, y, n);
    if n < |ka| {
      MemberTells(a, ka, x, b, kb, y, n);
      MembersGoOn(a, ka, n + 1, x);
      MembersGoOn(b, kb, n + 1, y);
      TextTells(a.members[ka[n]], MembersTail(a, ka, n + 1) + x, b.members[kb[n]], MembersTail(b, kb, n + 1) + y);
      MembersTell(a, ka, x, b, kb, y, n + 1);
      SameKeysFrom(ka, kb, n);
    }
  }
}
