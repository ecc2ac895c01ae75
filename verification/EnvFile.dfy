/** Environment files: how the supervisor prints and reads them. */
module EnvFile {
  import opened Wrappers
  import opened Text

  datatype Error = InvalidConfig | InvalidBundle

  datatype Entry = Entry(key: string, value: string)

  /** An object with string keys, in insertion order. */
  type Values = seq<Entry>

  ghost predicate Distinct(values: Values) {
    forall i, j | 0 <= i < j < |values| :: values[i].key != values[j].key
  }

  function Get(values: Values, key: string): Option<string> {
    if values == [] then None
    else if values[0].key == key then Some(values[0].value)
    else Get(values[1..], key)
  }

  /** `values[key] = value`: an existing key keeps its place. */
  function Put(values: Values, key: string, value: string): Values {
    if values == [] then [Entry(key, value)]
    else if values[0].key == key then [Entry(key, value)] + values[1..]
    else [values[0]] + Put(values[1..], key, value)
  }

  // ---------------------------------------------------------------- printing

  /** The test of `envValue`: not empty, no CR, LF or NUL. */
  predicate EnvValueOk(value: string) {
    value != "" && '\r' !in value && '\n' !in value && '\0' !in value
  }

  function EnvLine(e: Entry): string {
    e.key + "=" + e.value
  }

  function EnvLines(values: Values): seq<string> {
    if values == [] then [] else [EnvLine(values[0])] + EnvLines(values[1..])
  }

  function EnvText(values: Values): string {
    Join(EnvLines(values), LF) + LF
  }

  /** `envFile` throws on the first value that is undefined or fails the test. */
  function PrintEnv(values: Values): Result<string, Error> {
    if forall e | e in values :: EnvValueOk(e.value) then Ok(EnvText(values)) else Err(InvalidConfig)
  }

  // ---------------------------------------------------------------- reading

  predicate KeyChar(c: char) {
    'A' <= c <= 'Z' || '0' <= c <= '9' || c == '_'
  }

  predicate KeyOk(key: string) {
    key != "" && 'A' <= key[0] <= 'Z' && forall i | 0 <= i < |key| :: KeyChar(key[i])
  }

  /** What `.` does not match. */
  predicate LineTerminator(c: char) {
    c == '\n' || c == '\r' || c == '\U{2028}' || c == '\U{2029}'
  }

  predicate OneLine(value: string) {
    forall i | 0 <= i < |value| :: !LineTerminator(value[i])
  }

  /** Index of the first `=`, or the length. */
  function Equals(line: string): (n: nat)
    ensures n <= |line|
  {
    if line == "" || line[0] == '=' then 0 else 1 + Equals(line[1..])
  }

  /** The match of a line against `^([A-Z][A-Z0-9_]*)=(.*)$`; a key has no `=`. */
  function ParseLine(line: string): Option<Entry> {
    var n := Equals(line);
    if n < |line| && KeyOk(line[..n]) && OneLine(line[n + 1..]) then Some(Entry(line[..n], line[n + 1..])) else None
  }

  /** Split at `\r?\n`: every piece but the last loses one trailing CR. */
  function TextLines(text: string): seq<string> {
    DropCr(Split(text, LF))
  }

  function DropCr(pieces: seq<string>): seq<string> {
    if |pieces| <= 1 then pieces
    else [if pieces[0] != "" && Last(pieces[0]) == '\r' then Init(pieces[0]) else pieces[0]] + DropCr(pieces[1..])
  }

  function ReadLine(values: Values, line: string): Values {
    var e := ParseLine(line);
    if e.Some? then Put(values, e.value.key, e.value.value) else values
  }

  function ReadLines(values: Values, lines: seq<string>): Values
    decreases |lines|
  {
    if lines == [] then values else ReadLines(ReadLine(values, lines[0]), lines[1..])
  }

  function ReadEnv(text: string): Values {
    ReadLines([], TextLines(text))
  }

  method ReadEnvironmentFile(text: Option<string>) returns (values: Values)
    ensures values == if text.Some? then ReadEnv(text.value) else []
  {
    values := [];
    if text.None? { return; }
    var lines := TextLines(text.value);
    for i := 0 to |lines|
      invariant ReadLines([], lines) == ReadLines(values, lines[i..])
    {
      var match_ := ParseLine(lines[i]);
      assert lines[i..][0] == lines[i] && lines[i..][1..] == lines[i + 1..];
      if match_.Some? {
        values := Put(values, match_.value.key, match_.value.value);
      }
    }
  }

  // ---------------------------------------------------------------- objects

  lemma {:induction false} PutProperties(values: Values, key: string, value: string)
    ensures Get(Put(values, key, value), key) == Some(value)
    ensures forall k | k != key :: Get(Put(values, key, value), k) == Get(values, k)
    ensures forall e | e in Put(values, key, value) :: e == Entry(key, value) || e in values
    ensures Get(values, key) == Some(value) ==> Put(values, key, value) == values
  {
    if values != [] {
      var e, t := values[0], values[1..];
      PutProperties(t, key, value);
      assert values == [e] + t;
      GetCons(e, Put(t, key, value));
      GetCons(Entry(key, value), t);
    }
  }

  lemma GetCons(e: Entry, t: Values)
    ensures forall k :: Get([e] + t, k) == if e.key == k then Some(e.value) else Get(t, k)
  {
    assert ([e] + t)[1..] == t;
  }

  lemma {:induction false} PutDistinct(values: Values, key: string, value: string)
    requires Distinct(values)
    ensures Distinct(Put(values, key, value))
    ensures Get(values, key).None? ==> Put(values, key, value) == values + [Entry(key, value)]
  {
    if values != [] {
      var e, t := values[0], values[1..];
      assert values == [e] + t;
      PutDistinct(t, key, value);
      PutProperties(t, key, value);
      Associate([e], t, [Entry(key, value)]);
      if e.key == key {
        DistinctCons(Entry(key, value), t);
      } else {
        DistinctCons(e, Put(t, key, value));
      }
    }
  }

  lemma DistinctCons(e: Entry, t: Values)
    requires Distinct(t) && forall x | x in t :: x.key != e.key
    ensures Distinct([e] + t)
  {
  }

  lemma {:induction false} GetMember(values: Values, i: nat)
    requires Distinct(values) && i < |values|
    ensures Get(values, values[i].key) == Some(values[i].value)
  {
    if i > 0 {
      GetMember(values[1..], i - 1);
    }
  }

  lemma {:induction false} GetIsMember(values: Values, key: string)
    requires Get(values, key).Some?
    ensures Entry(key, Get(values, key).value) in values
  {
    if values[0].key != key {
      GetIsMember(values[1..], key);
    }
  }

  // ---------------------------------------------------------------- round trip

  /** The entries that survive printing and reading. */
  function Readable(values: Values): Values {
    if values == [] then []
    else (if OneLine(values[0].value) then [values[0]] else []) + Readable(values[1..])
  }

  ghost predicate AllKeysOk(values: Values) {
    forall e | e in values :: KeyOk(e.key)
  }

  ghost predicate AllEnvOk(values: Values) {
    forall e | e in values :: EnvValueOk(e.value)
  }

  lemma {:induction false} EqualsAfterKey(key: string, value: string)
    requires forall i | 0 <= i < |key| :: KeyChar(key[i])
    ensures Equals(key + "=" + value) == |key|
  {
    var line := key + "=" + value;
    if key != "" {
      EqualsAfterKey(key[1..], value);
      assert line[1..] == key[1..] + "=" + value;
      assert KeyChar(key[0]);
    }
  }

  lemma ParseEnvLine(e: Entry)
    requires KeyOk(e.key)
    ensures ParseLine(EnvLine(e)) == if OneLine(e.value) then Some(e) else None
  {
    EqualsAfterKey(e.key, e.value);
    var line := EnvLine(e);
    assert line[..|e.key|] == e.key && line[|e.key| + 1..] == e.value;
  }

  /** A line is an entry exactly if it is a key of capitals, digits and underscores that begins with a
      capital, an equals sign, and a value without the four line terminators. */
  lemma ParseExactly(line: string, key: string, value: string)
    ensures ParseLine(line) == Some(Entry(key, value)) <==>
            && line == key + "=" + value
            && key != "" && 'A' <= key[0] <= 'Z'
            && (forall c | c in key :: 'A' <= c <= 'Z' || '0' <= c <= '9' || c == '_')
            && (forall c | c in value :: c !in {'\n', '\r', '\U{2028}', '\U{2029}'})
  {
    if ParseLine(line) == Some(Entry(key, value)) {
      EqualsFound(line);
      assert line == key + "=" + value;
    } else if line == key + "=" + value && KeyOk(key) && OneLine(value) {
      ParseEnvLine(Entry(key, value));
    }
    if forall c | c in key :: 'A' <= c <= 'Z' || '0' <= c <= '9' || c == '_' {
      assert forall i | 0 <= i < |key| :: KeyChar(key[i]) by { assert forall i | 0 <= i < |key| :: key[i] in key; }
    }
    if forall c | c in value :: c !in {'\n', '\r', '\U{2028}', '\U{2029}'} {
      assert OneLine(value) by { assert forall i | 0 <= i < |value| :: value[i] in value; }
    }
  }

  lemma {:induction false} EqualsFound(line: string)
    ensures Equals(line) < |line| ==> line == line[..Equals(line)] + "=" + line[Equals(line) + 1..]
  {
    if line != "" && line[0] != '=' { EqualsFound(line[1..]); }
  }

  lemma {:induction false} EnvLinesPlain(values: Values)
    requires AllKeysOk(values) && AllEnvOk(values)
    ensures |EnvLines(values)| == |values|
    ensures forall l | l in EnvLines(values) :: '\n' !in l && '\r' !in l && l != ""
  {
    if values != [] {
      assert values[0] in values && forall e | e in values[1..] :: e in values;
      EnvLinesPlain(values[1..]);
      EnvLinePlain(values[0]);
    }
  }

  lemma EnvLinePlain(e: Entry)
    requires KeyOk(e.key) && EnvValueOk(e.value)
    ensures '\n' !in EnvLine(e) && '\r' !in EnvLine(e) && EnvLine(e) != ""
  {
    assert '\n' !in e.key && '\r' !in e.key;
  }

  /** The lines read back are the lines printed, then an empty one. */
  lemma TextLinesOfEnvText(values: Values)
    requires AllKeysOk(values) && AllEnvOk(values)
    ensures TextLines(EnvText(values)) == (if values == [] then [""] else EnvLines(values)) + [""]
  {
    var lines := EnvLines(values);
    EnvLinesPlain(values);
    if values == [] {
      SplitHead("", "");
      SplitSingle("");
      assert EnvText(values) == "" + (LF + "");
      assert [""] + [""] == ["", ""];
    } else {
      SplitJoinLines(lines + [""]);
      JoinSnoc(lines, "");
      assert LF + "" == LF;
    }
    DropNoCr((if values == [] then [""] else lines) + [""]);
  }

  lemma {:induction false} JoinSnoc(lines: seq<string>, last: string)
    requires lines != []
    ensures Join(lines + [last], LF) == Join(lines, LF) + (LF + last)
  {
    if |lines| == 1 {
      assert lines + [last] == [lines[0]] + [last];
      JoinMore(lines[0], [last], LF);
    } else {
      var head, t := lines[0], lines[1..];
      JoinSnoc(t, last);
      assert lines == [head] + t && lines + [last] == [head] + (t + [last]);
      JoinMore(head, t + [last], LF);
      JoinMore(head, t, LF);
      Associate(head + LF, Join(t, LF), LF + last);
    }
  }

  lemma {:induction false} DropNoCr(pieces: seq<string>)
    requires forall p | p in pieces :: '\r' !in p
    ensures DropCr(pieces) == pieces
  {
    if |pieces| > 1 {
      assert pieces[0] in pieces && forall p | p in pieces[1..] :: p in pieces;
      DropNoCr(pieces[1..]);
    }
  }

  /** Lines are read alike whether they end in LF or in CR LF. */
  lemma {:induction false} ReadsCrLf(lines: seq<string>)
    requires lines != [] && forall l | l in lines :: '\n' !in l && '\r' !in l
    ensures TextLines(Join(lines, "\r\n")) == lines && TextLines(Join(lines, LF)) == lines
  {
    SplitJoinLines(lines);
    DropNoCr(lines);
    JoinCrLf(lines);
    SplitJoinLines(WithCr(lines));
    DropWithCr(lines);
  }

  /** Every line but the last with a CR behind it. */
  function WithCr(lines: seq<string>): (ended: seq<string>)
    requires forall l | l in lines :: '\n' !in l
    ensures |ended| == |lines| && forall l | l in ended :: '\n' !in l
  {
    if |lines| <= 1 then lines else [lines[0] + "\r"] + WithCr(lines[1..])
  }

  lemma {:induction false} JoinCrLf(lines: seq<string>)
    requires lines != [] && forall l | l in lines :: '\n' !in l
    ensures Join(lines, "\r\n") == Join(WithCr(lines), LF)
  {
    if |lines| > 1 {
      var rest := lines[1..];
      JoinCrLf(rest);
      JoinMore(lines[0] + "\r", WithCr(rest), LF);
      assert lines[0] + "\r\n" == lines[0] + "\r" + LF;
    }
  }

  lemma {:induction false} DropWithCr(lines: seq<string>)
    requires forall l | l in lines :: '\n' !in l && '\r' !in l
    ensures DropCr(WithCr(lines)) == lines
  {
    if |lines| > 1 {
      var rest := lines[1..];
      DropWithCr(rest);
      assert WithCr(lines)[1..] == WithCr(rest);
      assert Init(lines[0] + "\r") == lines[0] && lines == [lines[0]] + rest;
    }
  }

  lemma ReadLinesCons(values: Values, line: string, rest: seq<string>)
    ensures ReadLines(values, [line] + rest) == ReadLines(ReadLine(values, line), rest)
  {
    assert ([line] + rest)[1..] == rest;
  }

  /** Reading printed lines with distinct keys appends the readable entries. */
  lemma {:induction false} ReadPrintedLines(before: Values, values: Values, rest: seq<string>)
    requires AllKeysOk(values) && Distinct(before + values)
    ensures ReadLines(before, EnvLines(values) + rest) == ReadLines(before + Readable(values), rest)
    decreases |values|
  {
    if values == [] {
      Associate([], [], rest);
      assert before + [] == before;
    } else {
      var e, t := values[0], values[1..];
      assert e in values && forall x | x in t :: x in values;
      assert values == [e] + t;
      Associate([EnvLine(e)], EnvLines(t), rest);
      ReadLinesCons(before, EnvLine(e), EnvLines(t) + rest);
      ParseEnvLine(e);
      DistinctWithout(before, e, t);
      if OneLine(e.value) {
        NoKey(before, e.key);
        PutDistinct(before, e.key, e.value);
        Associate(before, [e], t);
        ReadPrintedLines(before + [e], t, rest);
        Associate(before, [e], Readable(t));
      } else {
        ReadPrintedLines(before, t, rest);
        Associate([], [], Readable(t));
      }
    }
  }

  lemma DistinctWithout(before: Values, e: Entry, t: Values)
    requires Distinct(before + ([e] + t))
    ensures Distinct(before) && Distinct(before + t)
    ensures forall x | x in before :: x.key != e.key
  {
    var all, rest := before + ([e] + t), before + t;
    forall i, j | 0 <= i < j < |rest| ensures rest[i].key != rest[j].key {
      var i', j' := if i < |before| then i else i + 1, if j < |before| then j else j + 1;
      assert all[i'] == rest[i] && all[j'] == rest[j];
    }
    forall i, j | 0 <= i < j < |before| ensures before[i].key != before[j].key {
      assert all[i] == before[i] && all[j] == before[j];
    }
    forall x | x in before ensures x.key != e.key {
      var i :| 0 <= i < |before| && before[i] == x;
      assert all[i] == x && all[|before|] == e;
    }
  }

  lemma {:induction false} NoKey(values: Values, key: string)
    requires forall e | e in values :: e.key != key
    ensures Get(values, key).None?
  {
    if values != [] { NoKey(values[1..], key); }
  }

  /** What an environment file reads back as: the entries whose value is one line, in order. */
  lemma ReadBack(values: Values)
    requires AllKeysOk(values) && AllEnvOk(values) && Distinct(values)
    ensures ReadEnv(EnvText(values)) == Readable(values)
  {
    TextLinesOfEnvText(values);
    if values == [] {
      EmptyLine([], [""]);
    } else {
      assert [] + values == values && [] + Readable(values) == Readable(values);
      ReadPrintedLines([], values, [""]);
    }
    assert [""] + [] == [""];
    EmptyLine(Readable(values), []);
  }

  lemma EmptyLine(values: Values, rest: seq<string>)
    ensures ReadLines(values, [""] + rest) == ReadLines(values, rest)
  {
    ReadLinesCons(values, "", rest);
    assert ParseLine("").None?;
  }

  /** Everything read has a well-formed key, once, and a one-line value. */
  ghost predicate WellRead(values: Values) {
    Distinct(values) && forall e | e in values :: KeyOk(e.key) && OneLine(e.value)
  }

  lemma {:induction false} ReadIsWellFormed(values: Values, lines: seq<string>)
    requires WellRead(values)
    ensures WellRead(ReadLines(values, lines))
    decreases |lines|
  {
    if lines != [] {
      var e := ParseLine(lines[0]);
      if e.Some? {
        PutDistinct(values, e.value.key, e.value.value);
        PutProperties(values, e.value.key, e.value.value);
      }
      ReadIsWellFormed(ReadLine(values, lines[0]), lines[1..]);
    }
  }

  lemma {:induction false} ReadableAll(values: Values)
    requires forall e | e in values :: OneLine(e.value)
    ensures Readable(values) == values
  {
    if values != [] {
      assert values[0] in values && forall e | e in values[1..] :: e in values;
      ReadableAll(values[1..]);
      assert values == [values[0]] + values[1..];
    }
  }

  /** Reading a printed file gives back the same object with the same key order exactly when every key
      has the form that is read and no value holds a line terminator; the two that printing lets pass
      are U+2028 and U+2029. */
  lemma EnvFileRoundTrip(values: Values)
    requires Distinct(values) && PrintEnv(values).Ok?
    ensures ReadEnv(PrintEnv(values).value) == values <==>
            forall e | e in values :: KeyOk(e.key) && '\U{2028}' !in e.value && '\U{2029}' !in e.value
  {
    forall e | e in values ensures OneLine(e.value) <==> '\U{2028}' !in e.value && '\U{2029}' !in e.value {
      assert EnvValueOk(e.value);
    }
    if forall e | e in values :: KeyOk(e.key) && OneLine(e.value) {
      ReadBack(values);
      ReadableAll(values);
    }
    ReadIsWellFormed([], TextLines(EnvText(values)));
  }
}
