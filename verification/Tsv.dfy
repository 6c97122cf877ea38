/** The tab-separated batches the event writer sends: escaping, serialising, counting, and a reader
    that gets every field of every event back. */
module Tsv {

  // ---------------------------------------------------------------- escaping

  predicate Special(c: char) { c == '\\' || c == '\t' || c == '\n' || c == '\r' }

  predicate IsPlain(s: string) { forall i :: 0 <= i < |s| ==> !Special(s[i]) }

  // Printed timestamps and hexadecimal digests, which go out as they are.
  type PlainText = s: string | IsPlain(s)

  function EscapeChar(c: char): string {
    if c == '\\' then "\\\\" else if c == '\t' then "\\t" else if c == '\n' then "\\n"
    else if c == '\r' then "\\r" else [c]
  }

  function Escape(s: string): string {
    if s == "" then "" else Escape(s[..|s| - 1]) + EscapeChar(s[|s| - 1])
  }

  // The reader's side: a backslash announces one encoded character.
  function Unescape(s: string): string {
    if s == "" then ""
    else if s[0] == '\\' && |s| > 1 then [Decoded(s[1])] + Unescape(s[2..])
    else [s[0]] + Unescape(s[1..])
  }

  function Decoded(c: char): char {
    if c == 't' then '\t' else if c == 'n' then '\n' else if c == 'r' then '\r' else c
  }

  method EscapeTSV(s: string) returns (r: string)
    ensures r == Escape(s)
  {
    var special := false;
    for i := 0 to |s|
      invariant special <==> exists k :: 0 <= k < i && Special(s[k])
    {
      if Special(s[i]) { special := true; }
    }
    if !special {
      EscapeOfPlain(s);
      return s;
    }
    r := "";
    for i := 0 to |s|
      invariant r == Escape(s[..i])
    {
      assert s[..i + 1][..i] == s[..i];
      r := r + EscapeChar(s[i]);
    }
    assert s[..|s|] == s;
  }

  lemma {:induction false} EscapeOfPlain(s: string)
    requires IsPlain(s)
    ensures Escape(s) == s
  {
    if s != "" {
      var front := s[..|s| - 1];
      assert s == front + [s[|s| - 1]];
      EscapeOfPlain(front);
    }
  }

  // Whatever follows, the reader undoes an escaped field first.
  lemma {:induction false} UnescapePrefix(s: string, rest: string)
    ensures Unescape(Escape(s) + rest) == s + Unescape(rest)
    decreases |s|
  {
    if s == "" {
      assert Escape(s) + rest == rest;
    } else {
      var front, c := s[..|s| - 1], s[|s| - 1];
      assert s == front + [c];
      Associate(Escape(front), EscapeChar(c), rest);
      UnescapePrefix(front, EscapeChar(c) + rest);
      UnescapeOne(c, rest);
      Associate(front, [c], Unescape(rest));
    }
  }

  lemma Associate(a: string, b: string, c: string)
    ensures a + b + c == a + (b + c)
  {
  }

  lemma UnescapeOne(c: char, rest: string)
    ensures Unescape(EscapeChar(c) + rest) == [c] + Unescape(rest)
  {
    var t := EscapeChar(c) + rest;
    if Special(c) { assert t[2..] == rest; } else { assert t[1..] == rest; }
  }

  // Escaping loses nothing, and leaves no tab and no line end.
  lemma EscapeRoundTrip(s: string)
    ensures Unescape(Escape(s)) == s
    ensures '\t' !in Escape(s) && '\n' !in Escape(s) && '\r' !in Escape(s)
  {
    UnescapePrefix(s, "");
    assert Escape(s) + "" == Escape(s);
    EscapeClean(s);
  }

  lemma {:induction false} EscapeClean(s: string)
    ensures '\t' !in Escape(s) && '\n' !in Escape(s) && '\r' !in Escape(s)
  {
    if s != "" { EscapeClean(s[..|s| - 1]); }
  }

  // Which characters are escaped, and as what; everything else goes out as it is.
  lemma EscapeMeans(front: string, c: char)
    ensures Escape(front + [c]) == Escape(front) +
              if c == '\t' then "\\" + "t" else if c == '\n' then "\\" + "n" else if c == '\r' then "\\" + "r"
              else if c == '\\' then "\\" + "\\" else [c]
    ensures Escape("") == ""
  {
    assert (front + [c])[..|front|] == front;
  }

  // ---------------------------------------------------------------- splitting

  function Split(s: string, sep: char): (r: seq<string>)
    ensures r != []
  {
    if s == "" then [""]
    else if s[0] == sep then [""] + Split(s[1..], sep)
    else var r := Split(s[1..], sep); [[s[0]] + r[0]] + r[1..]
  }

  function Join(parts: seq<string>, sep: char): string
    requires parts != []
  {
    if |parts| == 1 then parts[0] else parts[0] + [sep] + Join(parts[1..], sep)
  }

  lemma {:induction false} SplitFirst(p: string, sep: char, rest: string)
    requires sep !in p
    ensures Split(p + [sep] + rest, sep) == [p] + Split(rest, sep)
  {
    var s := p + [sep] + rest;
    if p == "" {
      assert s[1..] == rest;
    } else {
      assert s[1..] == p[1..] + [sep] + rest;
      SplitFirst(p[1..], sep, rest);
      assert [p[0]] + p[1..] == p;
    }
  }

  lemma {:induction false} SplitWhole(p: string, sep: char)
    requires sep !in p
    ensures Split(p, sep) == [p]
  {
    if p != "" {
      SplitWhole(p[1..], sep);
      assert [p[0]] + p[1..] == p;
    }
  }

  lemma {:induction false} SplitJoin(parts: seq<string>, sep: char)
    requires parts != [] && forall p :: p in parts ==> sep !in p
    ensures Split(Join(parts, sep), sep) == parts
  {
    if |parts| == 1 {
      SplitWhole(parts[0], sep);
    } else {
      SplitJoin(parts[1..], sep);
      SplitFirst(parts[0], sep, Join(parts[1..], sep));
    }
  }

  // ---------------------------------------------------------------- batches

  datatype Event = Event(
    ts: PlainText, ns: string, kind: string, name: string, reason: string, severity: string, message: string,
    involvedObject: string, sourceComponent: string, source: string, node: string, minute: PlainText, id: PlainText)

  // A field is free text, to be escaped, or a printed value that goes out as it is.
  datatype Field = Text(text: string) | Printed(value: PlainText)

  function Content(f: Field): string { match f case Text(t) => t case Printed(v) => v }

  function Fields(tenant: string, cluster: string, ev: Event): seq<Field> {
    [Text(tenant), Text(cluster), Printed(ev.ts), Text(ev.ns), Text(ev.kind), Text(ev.name), Text(ev.reason),
     Text(ev.severity), Text(ev.message), Text(ev.involvedObject), Text(ev.sourceComponent), Text(ev.source),
     Text(ev.node), Printed(ev.minute), Printed(ev.id)]
  }

  method Serialize(tenant: string, cluster: string, events: seq<Event>) returns (rows: string)
    ensures rows == Batch(tenant, cluster, events)
  {
    rows := "";
    for i := 0 to |events|
      invariant rows == Batch(tenant, cluster, events[..i])
    {
      var columns := PrintColumns(Fields(tenant, cluster, events[i]));
      assert events[..i + 1][..i] == events[..i];
      rows := rows + Join(columns, '\t') + "\n";
    }
    assert events[..|events|] == events;
  }

  method PrintColumns(fields: seq<Field>) returns (columns: seq<string>)
    ensures columns == Columns(fields)
  {
    columns := [];
    for i := 0 to |fields|
      invariant |columns| == i && forall k :: 0 <= k < i ==> columns[k] == Escape(Content(fields[k]))
    {
      var column := "";
      if fields[i].Printed? {
        EscapeOfPlain(fields[i].value);
        column := fields[i].value;
      } else {
        column := EscapeTSV(fields[i].text);
      }
      columns := columns + [column];
    }
  }

  function Columns(fields: seq<Field>): (cols: seq<string>)
    ensures |cols| == |fields|
  {
    seq(|fields|, i requires 0 <= i < |fields| => Escape(Content(fields[i])))
  }

  function Line(tenant: string, cluster: string, ev: Event): string {
    Join(Columns(Fields(tenant, cluster, ev)), '\t')
  }

  function Batch(tenant: string, cluster: string, events: seq<Event>): string {
    if events == [] then ""
    else
      Batch(tenant, cluster, events[..|events| - 1]) + Line(tenant, cluster, events[|events| - 1]) + "\n"
  }

  function Lines(tenant: string, cluster: string, events: seq<Event>): (lines: seq<string>)
    ensures |lines| == |events|
    ensures forall i :: 0 <= i < |events| ==> lines[i] == Line(tenant, cluster, events[i])
  {
    if events == [] then []
    else Lines(tenant, cluster, events[..|events| - 1]) + [Line(tenant, cluster, events[|events| - 1])]
  }

  function Newlines(rows: string): nat {
    if rows == "" then 0 else Newlines(rows[..|rows| - 1]) + if rows[|rows| - 1] == '\n' then 1 else 0
  }

  method CountFlushed(rows: string, flushed: nat) returns (total: nat)
    ensures total == flushed + Newlines(rows)
  {
    var n := 0;
    for i := 0 to |rows|
      invariant n == Newlines(rows[..i])
    {
      assert rows[..i + 1][..i] == rows[..i];
      if rows[i] == '\n' { n := n + 1; }
    }
    assert rows[..|rows|] == rows;
    total := flushed + n;
  }

  // ---------------------------------------------------------------- what a reader sees

  lemma {:induction false} JoinClean(parts: seq<string>, sep: char, c: char)
    requires parts != [] && c != sep && forall p :: p in parts ==> c !in p
    ensures c !in Join(parts, sep)
  {
    if |parts| > 1 { JoinClean(parts[1..], sep, c); }
  }

  lemma ColumnsClean(fields: seq<Field>)
    ensures forall col :: col in Columns(fields) ==> '\t' !in col && '\n' !in col
  {
    forall col | col in Columns(fields) ensures '\t' !in col && '\n' !in col {
      var i :| 0 <= i < |fields| && Columns(fields)[i] == col;
      EscapeClean(Content(fields[i]));
    }
  }

  lemma LineClean(tenant: string, cluster: string, ev: Event)
    ensures '\n' !in Line(tenant, cluster, ev)
  {
    ColumnsClean(Fields(tenant, cluster, ev));
    JoinClean(Columns(Fields(tenant, cluster, ev)), '\t', '\n');
  }

  // One line per event: splitting a batch at line ends gives the lines in order, then what follows.
  lemma {:induction false} BatchLines(tenant: string, cluster: string, events: seq<Event>, rest: string)
    ensures Split(Batch(tenant, cluster, events) + rest, '\n') == Lines(tenant, cluster, events) + Split(rest, '\n')
    decreases |events|
  {
    if events == [] {
      assert Batch(tenant, cluster, events) + rest == rest;
    } else {
      var n := |events| - 1;
      var front, line := events[..n], Line(tenant, cluster, events[n]);
      Regroup(Batch(tenant, cluster, front), line, "\n", rest);
      BatchLines(tenant, cluster, front, line + "\n" + rest);
      LineClean(tenant, cluster, events[n]);
      SplitFirst(line, '\n', rest);
      Regroup2(Lines(tenant, cluster, front), line, Split(rest, '\n'));
    }
  }

  lemma Regroup(a: string, b: string, c: string, d: string)
    ensures a + b + c + d == a + (b + c + d)
  {
  }

  lemma Regroup2(a: seq<string>, b: string, c: seq<string>)
    ensures a + ([b] + c) == a + [b] + c
  {
  }

  // A reader that splits at line ends, splits each line at tabs and undoes the escaping gets one line
  // per event with exactly the fifteen original fields, and the writer's count is the number of events.
  lemma BatchRoundTrip(tenant: string, cluster: string, events: seq<Event>)
    ensures var rows := Batch(tenant, cluster, events);
            var lines := Split(rows, '\n');
            && |lines| == |events| + 1 && lines[|events|] == ""
            && (forall i :: 0 <= i < |events| ==> ReadsAs(lines[i], tenant, cluster, events[i]))
            && Newlines(rows) == |events|
  {
    var rows := Batch(tenant, cluster, events);
    assert rows + "" == rows;
    BatchLines(tenant, cluster, events, "");
    forall i | 0 <= i < |events| ensures ReadsAs(Split(rows, '\n')[i], tenant, cluster, events[i]) {
      LineRoundTrip(tenant, cluster, events[i]);
    }
    BatchNewlines(tenant, cluster, events);
  }

  // What stands in which column.
  predicate ReadsAs(line: string, tenant: string, cluster: string, ev: Event) {
    var cols := Split(line, '\t');
    && |cols| == 15
    && Unescape(cols[0]) == tenant && Unescape(cols[1]) == cluster && cols[2] == ev.ts
    && Unescape(cols[3]) == ev.ns && Unescape(cols[4]) == ev.kind && Unescape(cols[5]) == ev.name
    && Unescape(cols[6]) == ev.reason && Unescape(cols[7]) == ev.severity && Unescape(cols[8]) == ev.message
    && Unescape(cols[9]) == ev.involvedObject && Unescape(cols[10]) == ev.sourceComponent
    && Unescape(cols[11]) == ev.source && Unescape(cols[12]) == ev.node && cols[13] == ev.minute && cols[14] == ev.id
  }

  lemma LineRoundTrip(tenant: string, cluster: string, ev: Event)
    ensures ReadsAs(Line(tenant, cluster, ev), tenant, cluster, ev)
  {
    var fields := Fields(tenant, cluster, ev);
    ColumnsClean(fields);
    SplitJoin(Columns(fields), '\t');
    forall k | 0 <= k < 15 ensures ReadsBack(Columns(fields)[k], fields[k]) { ColumnReadsBack(fields, k); }
    FirstFields(tenant, cluster, ev);
    LastFields(tenant, cluster, ev);
  }

  predicate ReadsBack(col: string, f: Field) { match f case Text(t) => Unescape(col) == t case Printed(v) => col == v }

  lemma ColumnReadsBack(fields: seq<Field>, k: nat)
    requires k < |fields|
    ensures ReadsBack(Columns(fields)[k], fields[k])
  {
    EscapeRoundTrip(Content(fields[k]));
    if fields[k].Printed? { EscapeOfPlain(fields[k].value); }
  }

  lemma FirstFields(tenant: string, cluster: string, ev: Event)
    ensures var f := Fields(tenant, cluster, ev);
            && |f| == 15 && f[0] == Text(tenant) && f[1] == Text(cluster) && f[2] == Printed(ev.ts) && f[3] == Text(ev.ns)
            && f[4] == Text(ev.kind) && f[5] == Text(ev.name) && f[6] == Text(ev.reason) && f[7] == Text(ev.severity)
  {
  }

  lemma LastFields(tenant: string, cluster: string, ev: Event)
    ensures var f := Fields(tenant, cluster, ev);
            && f[8] == Text(ev.message) && f[9] == Text(ev.involvedObject) && f[10] == Text(ev.sourceComponent)
            && f[11] == Text(ev.source) && f[12] == Text(ev.node) && f[13] == Printed(ev.minute) && f[14] == Printed(ev.id)
  {
  }

  lemma {:induction false} NewlinesAppend(a: string, b: string)
    ensures Newlines(a + b) == Newlines(a) + Newlines(b)
  {
    if b == "" {
      assert a + b == a;
    } else {
      assert (a + b)[..|a + b| - 1] == a + b[..|b| - 1];
      NewlinesAppend(a, b[..|b| - 1]);
    }
  }

  lemma {:induction false} NoNewlines(s: string)
    requires '\n' !in s
    ensures Newlines(s) == 0
  {
    if s != "" { NoNewlines(s[..|s| - 1]); }
  }

  lemma {:induction false} BatchNewlines(tenant: string, cluster: string, events: seq<Event>)
    ensures Newlines(Batch(tenant, cluster, events)) == |events|
  {
    if events != [] {
      var n := |events| - 1;
      var line := Line(tenant, cluster, events[n]);
      BatchNewlines(tenant, cluster, events[..n]);
      LineClean(tenant, cluster, events[n]);
      NoNewlines(line);
      NewlinesAppend(Batch(tenant, cluster, events[..n]) + line, "\n");
      NewlinesAppend(Batch(tenant, cluster, events[..n]), line);
      assert Newlines("\n") == 1;
    }
  }
}
