/**
 * The `test.config` reader: the file is split into lines, every line of the form
 * `KEY=value` or `KEY="value"` is recorded in an accumulator (later lines win),
 * and the requested value has its `$NAME` references expanded once from the
 * same accumulator.
 */
module Config {
  import opened Text
  import opened Wrappers
  import opened Host

  // ---------------------------------------------------------------------- lines

  predicate NoNewline(l: string) {
    forall k :: 0 <= k < |l| ==> l[k] != '\n'
  }

  /** `content.split("\n")`: the pieces between line feeds, an empty piece after a final one. */
  function SplitLines(s: string): (r: seq<string>)
    ensures |r| >= 1
    ensures forall i :: 0 <= i < |r| ==> NoNewline(r[i])
    decreases |s|
  {
    var e := SpanEnd(s, 0, NonNewline);
    if e == |s| then [s] else [s[..e]] + SplitLines(s[e + 1..])
  }

  /** `lines.join("\n")`. */
  function Join(lines: seq<string>): string
    requires |lines| >= 1
    decreases |lines|
  {
    if |lines| == 1 then lines[0] else lines[0] + "\n" + Join(lines[1..])
  }

  /** Splitting loses nothing: the pieces joined by line feeds are the content. */
  lemma {:induction false} JoinSplit(s: string)
    ensures Join(SplitLines(s)) == s
    decreases |s|
  {
    var e := SpanEnd(s, 0, NonNewline);
    if e < |s| {
      JoinSplit(s[e + 1..]);
      assert s == s[..e] + "\n" + s[e + 1..];
    }
  }

  /** Lines without line feeds are recovered from their join. */
  lemma {:induction false} SplitJoin(lines: seq<string>)
    requires |lines| >= 1 && forall i :: 0 <= i < |lines| ==> NoNewline(lines[i])
    ensures SplitLines(Join(lines)) == lines
    decreases |lines|
  {
    if |lines| == 1 {
      SpanEndUnique(lines[0], 0, NonNewline, |lines[0]|);
    } else {
      SplitFirst(lines[0], Join(lines[1..]));
      SplitJoin(lines[1..]);
    }
  }

  /** A line feed after a line-feed-free first piece ends exactly that piece. */
  lemma SplitFirst(l: string, rest: string)
    requires NoNewline(l)
    ensures SplitLines(l + "\n" + rest) == [l] + SplitLines(rest)
  {
    var s := l + "\n" + rest;
    assert forall k :: 0 <= k < |l| ==> s[k] == l[k];
    SpanEndUnique(s, 0, NonNewline, |l|);
    assert s[..|l|] == l;
    assert s[|l| + 1..] == rest;
  }

  // ------------------------------------------------------------------ one line

  predicate AllWord(s: string) {
    forall k :: 0 <= k < |s| ==> IsWordChar(s[k])
  }

  predicate NoQuote(s: string) {
    forall k :: 0 <= k < |s| ==> s[k] != '"'
  }

  /** `line.match(/^(\w+)="?([^"]+)"?/)` and its two groups. `\w+` cannot stop early
      because `=` is not a word character; the greedy `"?` takes a quote when there is
      one, and then `[^"]+` must still find a character, since falling back to no quote
      would leave `[^"]+` facing the quote itself. The trailing `"?` always succeeds. */
  function ParseLine(line: string): Option<(string, string)> {
    var k := SpanEnd(line, 0, Word);
    if k == 0 || k == |line| || line[k] != '=' then None
    else
      var q := if k + 1 < |line| && line[k + 1] == '"' then k + 2 else k + 1;
      var e := SpanEnd(line, q, NonQuote);
      if e == q then None else Some((line[..k], line[q..e]))
  }

  /** The declarative reading of a match: the line starts with the key, `=`, `q` quotes
      (none or one) and the value; the value is the whole run of non-quotes there. */
  ghost predicate LineLayout(line: string, key: string, q: nat, value: string) {
    var n := |key| + 1 + q + |value|;
    && q <= 1 && n <= |line| && |key| > 0 && |value| > 0
    && line[..|key|] == key && line[|key|] == '='
    && (q == 1 ==> line[|key| + 1] == '"')
    && line[|key| + 1 + q..n] == value
    && AllWord(key) && NoQuote(value)
    && (n == |line| || line[n] == '"')
  }

  ghost predicate LineMatches(line: string, key: string, value: string) {
    exists q: nat :: LineLayout(line, key, q, value)
  }

  /** A line is recorded, with this key and value, exactly when it has the declared shape. */
  lemma ParseLineSpec(line: string, key: string, value: string)
    ensures ParseLine(line) == Some((key, value)) <==> LineMatches(line, key, value)
  {
    if ParseLine(line) == Some((key, value)) {
      ParseLineSound(line);
    }
    if LineMatches(line, key, value) {
      var q: nat :| LineLayout(line, key, q, value);
      ParseLineComplete(line, key, q, value);
    }
  }

  lemma ParseLineSound(line: string)
    requires ParseLine(line).Some?
    ensures LineMatches(line, ParseLine(line).value.0, ParseLine(line).value.1)
  {
    var k := SpanEnd(line, 0, Word);
    var q := if k + 1 < |line| && line[k + 1] == '"' then k + 2 else k + 1;
    var e := SpanEnd(line, q, NonQuote);
    var key, value := line[..k], line[q..e];
    assert forall j :: 0 <= j < |value| ==> value[j] == line[q + j];
    assert LineLayout(line, key, q - k - 1, value);
  }

  lemma ParseLineComplete(line: string, key: string, q: nat, value: string)
    requires LineLayout(line, key, q, value)
    ensures ParseLine(line) == Some((key, value))
  {
    var k := |key|;
    var v := k + 1 + q;
    var n := v + |value|;
    assert forall j :: 0 <= j < k ==> line[j] == key[j];
    SpanEndUnique(line, 0, Word, k);
    assert forall j :: v <= j < n ==> line[j] == value[j - v];
    if q == 0 && k + 1 < |line| {
      assert line[k + 1] == value[0];
    }
    SpanEndUnique(line, v, NonQuote, n);
  }

  // --------------------------------------------------------------- accumulator

  /** The entry recorded for `key`, if any. */
  function Lookup(m: map<string, string>, key: string): Option<string> {
    if key in m then Some(m[key]) else None
  }

  /** The accumulator after the parsing loop has seen `lines`: each matching line sets its key. */
  function Store(acc: map<string, string>, lines: seq<string>): map<string, string>
    decreases |lines|
  {
    if lines == [] then acc
    else
      var m := Store(acc, lines[..|lines| - 1]);
      match ParseLine(lines[|lines| - 1])
      case None => m
      case Some((k, v)) => m[k := v]
  }

  /** `line` matches and records `key`. */
  predicate Records(line: string, key: string) {
    ParseLine(line).Some? && ParseLine(line).value.0 == key
  }

  /** The value of the last line recorded under `key`, if there is one. */
  function LastValue(lines: seq<string>, key: string): Option<string>
    decreases |lines|
  {
    if lines == [] then None
    else
      var last := lines[|lines| - 1];
      if Records(last, key) then Some(ParseLine(last).value.1) else LastValue(lines[..|lines| - 1], key)
  }

  /** After the loop, a key holds its last recorded value, or what the accumulator held before. */
  lemma {:induction false} StoreLookup(acc: map<string, string>, lines: seq<string>, key: string)
    ensures Lookup(Store(acc, lines), key) == if LastValue(lines, key).Some? then LastValue(lines, key) else Lookup(acc, key)
    decreases |lines|
  {
    if lines != [] {
      StoreLookup(acc, lines[..|lines| - 1], key);
    }
  }

  /** The last line recorded under a key decides its value. */
  lemma {:induction false} LastValueAt(lines: seq<string>, i: nat, key: string, value: string)
    requires i < |lines| && ParseLine(lines[i]) == Some((key, value))
    requires forall j :: i < j < |lines| ==> !Records(lines[j], key)
    ensures LastValue(lines, key) == Some(value)
    decreases |lines|
  {
    if i < |lines| - 1 {
      var init := lines[..|lines| - 1];
      assert forall j :: i < j < |init| ==> init[j] == lines[j];
      LastValueAt(init, i, key, value);
    }
  }

  /** A key no line records has no last value. */
  lemma {:induction false} LastValueNone(lines: seq<string>, key: string)
    requires forall j :: 0 <= j < |lines| ==> !Records(lines[j], key)
    ensures LastValue(lines, key) == None
    decreases |lines|
  {
    if lines != [] {
      var init := lines[..|lines| - 1];
      assert forall j :: 0 <= j < |init| ==> init[j] == lines[j];
      LastValueNone(init, key);
    }
  }

  /** Later lines overwrite earlier ones. */
  lemma StoreLastWins(acc: map<string, string>, lines: seq<string>, i: nat, key: string, value: string)
    requires i < |lines| && ParseLine(lines[i]) == Some((key, value))
    requires forall j :: i < j < |lines| ==> !Records(lines[j], key)
    ensures key in Store(acc, lines) && Store(acc, lines)[key] == value
  {
    LastValueAt(lines, i, key, value);
    StoreLookup(acc, lines, key);
  }

  /** A key no line records keeps what the accumulator held, present or absent. */
  lemma StoreUntouched(acc: map<string, string>, lines: seq<string>, key: string)
    requires forall j :: 0 <= j < |lines| ==> !Records(lines[j], key)
    ensures Lookup(Store(acc, lines), key) == Lookup(acc, key)
  {
    LastValueNone(lines, key);
    StoreLookup(acc, lines, key);
  }

  /** A last value exists exactly when some line records the key. */
  lemma {:induction false} LastValueExists(lines: seq<string>, key: string)
    ensures LastValue(lines, key).Some? <==> exists i :: 0 <= i < |lines| && Records(lines[i], key)
    decreases |lines|
  {
    if lines != [] {
      var init := lines[..|lines| - 1];
      LastValueExists(init, key);
      if exists i :: 0 <= i < |init| && Records(init[i], key) {
        var i :| 0 <= i < |init| && Records(init[i], key);
        assert Records(lines[i], key);
      }
      if exists i :: 0 <= i < |lines| && Records(lines[i], key) {
        var i :| 0 <= i < |lines| && Records(lines[i], key);
        if i < |init| {
          assert Records(init[i], key);
        }
      }
    }
  }

  /** After the loop a key is present exactly when it was before or some line records it. */
  lemma StoreHasKey(acc: map<string, string>, lines: seq<string>, key: string)
    ensures key in Store(acc, lines) <==> key in acc || exists i :: 0 <= i < |lines| && Records(lines[i], key)
  {
    StoreLookup(acc, lines, key);
    LastValueExists(lines, key);
  }

  /** Nothing is ever removed from the accumulator. */
  lemma StoreKeepsKeys(acc: map<string, string>, lines: seq<string>, key: string)
    requires key in acc
    ensures key in Store(acc, lines)
  {
    StoreLookup(acc, lines, key);
  }

  /** Reading the same lines into an accumulator that already holds them changes nothing. */
  lemma StoreIdempotent(acc: map<string, string>, lines: seq<string>)
    ensures Store(Store(acc, lines), lines) == Store(acc, lines)
  {
    var once := Store(acc, lines);
    var twice := Store(once, lines);
    forall key | true ensures Lookup(twice, key) == Lookup(once, key) {
      StoreLookup(once, lines, key);
      StoreLookup(acc, lines, key);
    }
    SameLookups(twice, once);
  }

  lemma SameLookups(a: map<string, string>, b: map<string, string>)
    requires forall key :: Lookup(a, key) == Lookup(b, key)
    ensures a == b
  {
    forall key | key in a ensures key in b && a[key] == b[key] {
      assert Lookup(a, key) == Lookup(b, key);
    }
    forall key | key in b ensures key in a {
      assert Lookup(a, key) == Lookup(b, key);
    }
  }

  // ----------------------------------------------------------------- expansion

  /** The replacement for the reference `$name`: the recorded value, or the reference as written. */
  function Substitute(name: string, m: map<string, string>): string {
    if name in m then m[name] else "$" + name
  }

  /** `value.replace(/\$([A-Za-z_]\w*)/g, ...)`: every reference, scanning left to right
      through the original text, is replaced by its substitute; the substitute is not
      scanned again. */
  function Expand(v: string, m: map<string, string>): string
    decreases |v|
  {
    if v == [] then []
    else if v[0] == '$' && |v| > 1 && IsIdentStart(v[1]) then
      var e := SpanEnd(v, 1, Word);
      Substitute(v[1..e], m) + Expand(v[e..], m)
    else [v[0]] + Expand(v[1..], m)
  }

  /** Text without `$` is left as it is. */
  lemma {:induction false} ExpandNoReference(v: string, m: map<string, string>)
    requires forall k :: 0 <= k < |v| ==> v[k] != '$'
    ensures Expand(v, m) == v
    decreases |v|
  {
    if v != [] {
      ExpandNoReference(v[1..], m);
    }
  }

  /** With nothing recorded, every reference stays as written. */
  lemma {:induction false} ExpandEmptyMap(v: string)
    ensures Expand(v, map[]) == v
    decreases |v|
  {
    if v != [] {
      if v[0] == '$' && |v| > 1 && IsIdentStart(v[1]) {
        var e := SpanEnd(v, 1, Word);
        ExpandEmptyMap(v[e..]);
        assert "$" + v[1..e] == v[..e];
        assert v[..e] + v[e..] == v;
      } else {
        ExpandEmptyMap(v[1..]);
      }
    }
  }

  /** A reference `$name` followed by text that cannot continue the name is replaced by its
      substitute, and expansion resumes right after the name. */
  lemma ExpandReference(name: string, rest: string, m: map<string, string>)
    requires |name| > 0 && IsIdentStart(name[0]) && AllWord(name)
    requires rest == [] || !IsWordChar(rest[0])
    ensures Expand("$" + name + rest, m) == Substitute(name, m) + Expand(rest, m)
  {
    var v := "$" + name + rest;
    var n := |name| + 1;
    assert forall k :: 1 <= k < n ==> v[k] == name[k - 1];
    assert n < |v| ==> v[n] == rest[0];
    SpanEndUnique(v, 1, Word, n);
    assert v[1..n] == name;
    assert v[n..] == rest;
  }

  /** Expansion is single-level: a recorded value is inserted as it is, even when it holds
      references of its own. */
  lemma ExpandSingleLevel(name: string, m: map<string, string>)
    requires |name| > 0 && IsIdentStart(name[0]) && AllWord(name) && name in m
    ensures Expand("$" + name, m) == m[name]
  {
    ExpandReference(name, [], m);
    assert "$" + name + [] == "$" + name;
  }

  // ------------------------------------------------------------------- reading

  /** The accumulator a read starts from: the one passed in, or a fresh empty one. */
  function Initial(config: Option<map<string, string>>): map<string, string> {
    if config.Some? then config.value else map[]
  }

  /** `readFromConfig(key, config)` on the file content `content`: the accumulator after the
      read is returned as `entries` (the source updates the caller's object in place). */
  method ReadFromConfig(content: string, key: string, config: Option<map<string, string>>)
    returns (entries: map<string, string>, r: Result<string>)
    ensures entries == Store(Initial(config), SplitLines(content))
    ensures key in entries ==> r == Ok(Expand(entries[key], entries))
    ensures key !in entries ==> r == Err(KeyNotFound(key))
    ensures key in Initial(config) ==> r.Ok?
  {
    var lines := SplitLines(content);
    entries := Initial(config);
    for i := 0 to |lines|
      invariant entries == Store(Initial(config), lines[..i])
    {
      assert lines[..i + 1][..i] == lines[..i];
      var parsed := ParseLine(lines[i]);
      if parsed.Some? {
        entries := entries[parsed.value.0 := parsed.value.1];
      }
    }
    assert lines[..|lines|] == lines;
    if key in Initial(config) {
      StoreKeepsKeys(Initial(config), lines, key);
    }
    if key !in entries {
      return entries, Err(KeyNotFound(key));
    }
    r := Ok(Expand(entries[key], entries));
  }
}
