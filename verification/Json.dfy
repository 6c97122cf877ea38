/** The text a JSON value is written as, and why an object's text never ends another object's text. */
module Json {

  // Numbers, booleans and null: text without a quote, a backslash or a bracket.
  predicate PlainText(s: string) { forall i :: 0 <= i < |s| ==> s[i] !in "\"\\{}[]" }

  type Plain = s: string | PlainText(s) witness "null"

  datatype Value = Scalar(plain: Plain) | Text(text: string) | Array(items: seq<Value>) | Object(fields: seq<Field>)

  // An object's fields stand in the order of their keys.
  datatype Field = Field(key: string, value: Value)

  // ---------------------------------------------------------------- writing

  function HexDigit(n: nat): char { "0123456789abcdef"[n % 16] }

  function Unicode(n: nat): string {
    "\\u" + [HexDigit(n / 0x1000), HexDigit(n / 0x100), HexDigit(n / 0x10), HexDigit(n)]
  }

  function EscapedChar(c: char): string {
    if c == '\"' then "\\\"" else if c == '\\' then "\\\\" else if c == '\n' then "\\n" else if c == '\r' then "\\r"
    else if c == '\t' then "\\t" else if c as int == 8 then "\\b" else if c as int == 12 then "\\f"
    else if ' ' <= c <= '~' then [c]
    else if c as int < 0x1_0000 then Unicode(c as int)
    else Unicode(0xd800 + (c as int - 0x1_0000) / 0x400) + Unicode(0xdc00 + (c as int - 0x1_0000) % 0x400)
  }

  function Escaped(s: string): string { if s == "" then "" else EscapedChar(s[0]) + Escaped(s[1..]) }

  function Quoted(s: string): string { "\"" + Escaped(s) + "\"" }

  function Written(v: Value): string {
    match v
    case Scalar(plain) => plain
    case Text(text) => Quoted(text)
    case Array(items) => "[" + WrittenItems(items) + "]"
    case Object(fields) => "{" + WrittenFields(fields) + "}"
  }

  function WrittenItems(items: seq<Value>): string {
    if items == [] then ""
    else Written(items[0]) + (if |items| == 1 then "" else ", ") + WrittenItems(items[1..])
  }

  function WrittenFields(fields: seq<Field>): string {
    if fields == [] then ""
    else Quoted(fields[0].key) + ": " + Written(fields[0].value) + (if |fields| == 1 then "" else ", ")
         + WrittenFields(fields[1..])
  }

  // The format by examples of each kind.
  lemma FormatMeans(key: string, a: Value, b: Value, rest: seq<Value>, f: Field, g: Field, more: seq<Field>)
    ensures Written(Object([])) == "{}" && Written(Array([])) == "[]"
    ensures Written(Object([f])) == "{" + (Quoted(f.key) + ": " + Written(f.value)) + "}"
    ensures Written(Array([a])) == "[" + Written(a) + "]"
    ensures WrittenFields([f, g] + more) == Quoted(f.key) + ": " + Written(f.value) + ", " + WrittenFields([g] + more)
    ensures WrittenItems([a, b] + rest) == Written(a) + ", " + WrittenItems([b] + rest)
    ensures Quoted(key) == "\"" + Escaped(key) + "\"" && Escaped("") == ""
  {
    assert ([f, g] + more)[1..] == [g] + more && ([a, b] + rest)[1..] == [b] + rest;
    assert [f][1..] == [] && [a][1..] == [];
    assert WrittenFields([f]) == Quoted(f.key) + ": " + Written(f.value) + "" + "";
    assert WrittenItems([a]) == Written(a) + "" + "";
  }

  // Printable characters but quote and backslash stand for themselves, the common control characters have short
  // escapes, and all others are escaped by number.
  lemma EscapeMeans(c: char, s: string)
    ensures Escaped([c] + s) == EscapedChar(c) + Escaped(s)
    ensures 32 <= c as int <= 126 && c != '\"' && c != '\\' ==> EscapedChar(c) == [c]
    ensures EscapedChar('\"') == "\\\"" && EscapedChar('\\') == "\\\\" && EscapedChar('\n') == "\\n"
    ensures EscapedChar('\r') == "\\r" && EscapedChar('\t') == "\\t"
    ensures 126 < c as int < 0x1_0000 || (c as int < 32 && c as int !in {8, 9, 10, 12, 13}) ==> EscapedChar(c) == Unicode(c as int)
  {
    assert ([c] + s)[1..] == s;
  }

  // An escape by number has four hexadecimal digits.
  lemma UnicodeMeans()
    ensures Unicode(0x20ac) == "\\u20ac" && Unicode(7) == "\\u0007" && Unicode(0x1bdf) == "\\u1bdf"
  {
  }

  // ---------------------------------------------------------------- scanning

  // Where a scanner stands: outside text at a depth of brackets, inside a text, behind a backslash in a
  // text, at the end of the object, or nowhere an object's text can lead.
  datatype Scanner = Out(depth: nat) | In(depth: nat) | Behind(depth: nat) | End | Bad

  function Scan1(st: Scanner, c: char): Scanner {
    match st
    case Out(d) =>
      if d == 0 then (if c == '{' then Out(1) else Bad)
      else if c == '\"' then In(d)
      else if c == '\\' then Bad
      else if c == '{' || c == '[' then Out(d + 1)
      else if c == '}' || c == ']' then (if d == 1 then End else Out(d - 1))
      else st
    case In(d) => if c == '\"' then Out(d) else if c == '\\' then Behind(d) else st
    case Behind(d) => if c in "\"\\/bfnrtu" then In(d) else Bad
    case _ => Bad
  }

  function Scan(st: Scanner, s: string): Scanner
    decreases |s|
  {
    if s == "" then st else Scan(Scan1(st, s[0]), s[1..])
  }

  lemma {:induction false} ScanThen(st: Scanner, s: string, t: string)
    ensures Scan(st, s + t) == Scan(Scan(st, s), t)
    decreases |s|
  {
    if s == "" {
      assert s + t == t;
    } else {
      assert (s + t)[1..] == s[1..] + t;
      ScanThen(Scan1(st, s[0]), s[1..], t);
    }
  }

  lemma {:induction false} ScanPlain(s: string, d: nat)
    requires d > 0 && PlainText(s)
    ensures Scan(Out(d), s) == Out(d)
  {
    if s != "" { ScanPlain(s[1..], d); }
  }

  // Characters that leave a text as it is, one after the other.
  lemma {:induction false} ScanWithin(s: string, d: nat)
    requires forall i :: 0 <= i < |s| ==> s[i] != '\"' && s[i] != '\\'
    ensures Scan(In(d), s) == In(d)
  {
    if s != "" { ScanWithin(s[1..], d); }
  }

  lemma ScanUnicode(n: nat, d: nat)
    ensures Scan(In(d), Unicode(n)) == In(d)
  {
    var hex := [HexDigit(n / 0x1000), HexDigit(n / 0x100), HexDigit(n / 0x10), HexDigit(n)];
    assert Unicode(n)[1..][1..] == hex;
    ScanWithin(hex, d);
  }

  lemma ScanEscapedChar(c: char, d: nat)
    ensures Scan(In(d), EscapedChar(c)) == In(d)
  {
    var e := EscapedChar(c);
    if c as int >= 0x1_0000 {
      ScanThen(In(d), Unicode(0xd800 + (c as int - 0x1_0000) / 0x400), Unicode(0xdc00 + (c as int - 0x1_0000) % 0x400));
      ScanUnicode(0xd800 + (c as int - 0x1_0000) / 0x400, d);
      ScanUnicode(0xdc00 + (c as int - 0x1_0000) % 0x400, d);
    } else if e == Unicode(c as int) {
      ScanUnicode(c as int, d);
    } else if e == [c] {
      ScanWithin(e, d);
    } else {
      ScanShort(e[1], d);
    }
  }

  lemma ScanShort(c: char, d: nat)
    requires c in "\"\\/bfnrtu"
    ensures Scan(In(d), ['\\', c]) == In(d)
  {
    assert ['\\', c][1..] == [c] && [c][1..] == "";
    assert Scan(In(d), ['\\', c]) == Scan(Behind(d), [c]) == Scan(In(d), "");
  }

  lemma {:induction false} ScanEscaped(s: string, d: nat)
    ensures Scan(In(d), Escaped(s)) == In(d)
  {
    if s != "" {
      ScanEscapedChar(s[0], d);
      ScanThen(In(d), EscapedChar(s[0]), Escaped(s[1..]));
      ScanEscaped(s[1..], d);
    }
  }

  lemma ScanQuoted(s: string, d: nat)
    requires d > 0
    ensures Scan(Out(d), Quoted(s)) == Out(d)
  {
    assert Quoted(s)[1..] == Escaped(s) + "\"";
    ScanThen(In(d), Escaped(s), "\"");
    ScanEscaped(s, d);
  }

  // Inside an object every value brings the scanner back to where it stood.
  lemma {:induction false} ScanWritten(v: Value, d: nat)
    requires d > 0
    ensures Scan(Out(d), Written(v)) == Out(d)
    decreases v, 1
  {
    match v
    case Scalar(plain) => ScanPlain(plain, d);
    case Text(text) => ScanQuoted(text, d);
    case Array(items) =>
      ScanItems(items, d + 1);
      ScanBracketed('[', WrittenItems(items), ']', d);
    case Object(fields) =>
      ScanFields(fields, d + 1);
      ScanBracketed('{', WrittenFields(fields), '}', d);
  }

  lemma ScanBracketed(open: char, s: string, close: char, d: nat)
    requires (open == '{' && close == '}') || (open == '[' && close == ']' && d > 0)
    requires Scan(Out(d + 1), s) == Out(d + 1)
    ensures Scan(Out(d), [open] + s + [close]) == if d > 0 then Out(d) else End
  {
    var all := [open] + s + [close];
    assert all[0] == open && all[1..] == s + [close];
    ScanThen(Out(d + 1), s, [close]);
    assert Scan(Out(d + 1), [close]) == Scan(Scan1(Out(d + 1), close), []);
  }

  lemma {:induction false} ScanItems(items: seq<Value>, d: nat)
    requires d > 0
    ensures Scan(Out(d), WrittenItems(items)) == Out(d)
    decreases items, 0
  {
    if items != [] {
      var value, comma, rest := Written(items[0]), if |items| == 1 then "" else ", ", WrittenItems(items[1..]);
      ScanWritten(items[0], d);
      ScanPlain(comma, d);
      ScanItems(items[1..], d);
      ScanThen(Out(d), value, comma);
      ScanThen(Out(d), value + comma, rest);
    }
  }

  lemma {:induction false} ScanFields(fields: seq<Field>, d: nat)
    requires d > 0
    ensures Scan(Out(d), WrittenFields(fields)) == Out(d)
    decreases fields, 0
  {
    if fields != [] {
      var key, value := Quoted(fields[0].key), Written(fields[0].value);
      var comma, rest := if |fields| == 1 then "" else ", ", WrittenFields(fields[1..]);
      ScanQuoted(fields[0].key, d);
      ScanPlain(": ", d);
      ScanWritten(fields[0].value, d);
      ScanPlain(comma, d);
      ScanFields(fields[1..], d);
      ScanThen(Out(d), key, ": ");
      ScanThen(Out(d), key + ": ", value);
      ScanThen(Out(d), key + ": " + value, comma);
      ScanThen(Out(d), key + ": " + value + comma, rest);
    }
  }

  lemma ScanObject(fields: seq<Field>)
    ensures Scan(Out(0), Written(Object(fields))) == End
  {
    ScanFields(fields, 1);
    ScanBracketed('{', WrittenFields(fields), '}', 0);
  }

  // ---------------------------------------------------------------- no object ends another

  lemma {:induction false} BadStays(st: Scanner, s: string)
    requires st == Bad || (st == End && s != "")
    ensures Scan(st, s) == Bad
    decreases |s|
  {
    if s != "" { BadStays(Scan1(st, s[0]), s[1..]); }
  }

  // The same place, some brackets deeper.
  function Deeper(st: Scanner, d: nat): Scanner {
    match st
    case Out(e) => Out(e + d)
    case In(e) => In(e + d)
    case Behind(e) => Behind(e + d)
    case End => Out(d)
    case Bad => Bad
  }

  lemma DeeperOnce(st: Scanner, d: nat, c: char)
    requires d > 0 && Scan1(st, c) != Bad
    ensures Scan1(Deeper(st, d), c) == Deeper(Scan1(st, c), d)
  {
  }

  // Text that ends an object does not end it when read inside another object.
  lemma {:induction false} DeeperStays(st: Scanner, d: nat, s: string)
    requires d > 0 && Scan(st, s) == End
    ensures Scan(Deeper(st, d), s) == Out(d)
    decreases |s|
  {
    if st == Bad || (st == End && s != "") {
      BadStays(st, s);
    } else if s != "" {
      if Scan1(st, s[0]) == Bad { BadStays(Bad, s[1..]); }
      DeeperOnce(st, d, s[0]);
      DeeperStays(Scan1(st, s[0]), d, s[1..]);
    }
  }

  // In and out of text the other way round.
  ghost predicate Flipped(a: Scanner, b: Scanner) {
    match a
    case Out(_) => b.In?
    case In(_) => b.Out? || b == End
    case Behind(_) => b == Bad
    case End => b.In?
    case Bad => true
  }

  // Nor does it when read inside a text: what is text for the one is not for the other.
  lemma {:induction false} FlippedStays(a: Scanner, b: Scanner, s: string)
    requires (Flipped(a, b) || b == Bad) && Scan(a, s) == End && Deep(b)
    ensures Scan(b, s) != End
    decreases |s|
  {
    if b == Bad || (b == End && s != "") {
      BadStays(b, s);
    } else if a == Bad || (a == End && s != "") {
      BadStays(a, s);
    } else if s != "" {
      if Scan1(a, s[0]) == Bad { BadStays(Bad, s[1..]); }
      FlippedStays(Scan1(a, s[0]), Scan1(b, s[0]), s[1..]);
    }
  }

  // Once begun, an object is not back at its start before it has ended.
  predicate Deep(st: Scanner) { st == End || st == Bad || st.depth > 0 }

  lemma {:induction false} ScanIsDeep(st: Scanner, s: string)
    requires Deep(st) || (st == Out(0) && s != "")
    ensures Deep(Scan(st, s))
    decreases |s|
  {
    if s != "" { ScanIsDeep(Scan1(st, s[0]), s[1..]); }
  }

  // No object's text is a proper suffix of another object's text.
  lemma NoProperSuffix(u: string, f: seq<Field>, g: seq<Field>)
    requires Written(Object(g)) == u + Written(Object(f))
    ensures u == ""
  {
    var s, st := Written(Object(f)), Scan(Out(0), u);
    ScanObject(f);
    ScanObject(g);
    ScanThen(Out(0), u, s);
    if u != "" {
      ScanIsDeep(Out(0), u);
      match st
      case Out(d) => DeeperStays(Out(0), d, s);
      case In(d) => FlippedStays(Out(0), st, s);
      case Behind(d) =>
        assert s[0] == '{' && Scan1(st, s[0]) == Bad;
        BadStays(Bad, s[1..]);
      case _ => BadStays(st, s);
    }
  }

  // So text followed by an object can be taken apart again.
  lemma ObjectSeparates(a: string, f: seq<Field>, b: string, g: seq<Field>)
    requires a + Written(Object(f)) == b + Written(Object(g))
    ensures a == b && Written(Object(f)) == Written(Object(g))
  {
    if |a| <= |b| { SplitAt(a, f, b, g); } else { SplitAt(b, g, a, f); }
  }

  lemma SplitAt(a: string, f: seq<Field>, b: string, g: seq<Field>)
    requires a + Written(Object(f)) == b + Written(Object(g)) && |a| <= |b|
    ensures a == b && Written(Object(f)) == Written(Object(g))
  {
    var all, s, t := a + Written(Object(f)), Written(Object(f)), Written(Object(g));
    assert all[..|a|] == a && all[..|b|] == b && all[|a|..] == s && all[|b|..] == t;
    assert b == a + b[|a|..];
    assert s == b[|a|..] + t;
    NoProperSuffix(b[|a|..], g, f);
  }
}
