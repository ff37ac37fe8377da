/** The build configuration's reading of `docker.env` (vite.config.ts): each `KEY=VALUE` line
    fills in an entry of the environment dictionary that `loadEnv` produced, unless that entry
    is already set; then the API key is published to the client bundle under two names.
    Reading the file and `loadEnv` itself are not modelled: the file's text (absent when the
    file is missing or unreadable) and the initial dictionary are parameters. */
module DockerEnv {
  import opened Wrappers
  import opened Text
  import JsObjects

  /** The environment dictionary: variable name to value. */
  type Env = map<string, string>

  /** `env[key]` is truthy: an own entry with a non-empty value or, without an own entry, one of
      the members the dictionary (a plain object) inherits from Object.prototype. */
  predicate Truthy(env: Env, key: string) {
    if key in env then env[key] != "" else JsObjects.IsInherited(key)
  }

  /** A `KEY=VALUE` line after parsing: the trimmed key and the trimmed value. */
  datatype Entry = Entry(key: string, value: string)

  /** What one line of the file contributes before the "already set" test: nothing for a line
      that is blank after trimming, starts with `#`, has no `=` or has nothing before its first
      `=`; otherwise the trimmed key and the trimmed rest of the line after the first `=`. */
  function ParseLine(line: string): Option<Entry> {
    var trimmedLine := Trim(line);
    if trimmedLine == "" || StartsWith(trimmedLine, "#") then None
    else
      var parts := Split(trimmedLine, '=');
      var key := parts[0];
      var valueParts := parts[1..];
      if key != "" && |valueParts| > 0 then Some(Entry(Trim(key), Trim(Join(valueParts, '='))))
      else None
  }

  /** A stored key is never empty, is trimmed and holds no `=`; a stored value is trimmed. */
  lemma ParsedEntryShape(line: string)
    requires ParseLine(line).Some?
    ensures var e := ParseLine(line).value;
      e.key != "" && Trim(e.key) == e.key && '=' !in e.key && Trim(e.value) == e.value
  {
    var trimmedLine := Trim(line);
    var parts := Split(trimmedLine, '=');
    var key := parts[0];
    SplitFirstIsPrefix(trimmedLine, '=');
    assert key[0] == trimmedLine[0];
    TrimIdempotent(key);
    TrimKeepsCharacters(key);
    TrimIdempotent(Join(parts[1..], '='));
  }

  /** ParseLine stated without split and join: the key is what precedes the first `=` and the
      value is everything after it, so a value may itself contain `=`. */
  function ParseLineByFirstEquals(line: string): Option<Entry> {
    var t := Trim(line);
    if t == "" || t[0] == '#' then None
    else
      match IndexOf(t, '=')
      case None => None
      case Some(i) => if i == 0 then None else Some(Entry(Trim(t[..i]), Trim(t[i + 1..])))
  }

  /** The split-and-join parse agrees with the first-`=` reading on every line. */
  lemma ParseLineMeaning(line: string)
    ensures ParseLine(line) == ParseLineByFirstEquals(line)
  {
    var t := Trim(line);
    if t != "" && t[0] != '#' {
      assert !StartsWith(t, "#");
      var parts := Split(t, '=');
      match IndexOf(t, '=')
      case None =>
        assert parts == [t];
      case Some(i) =>
        SplitAtFirst(t, '=', i);
        assert parts[0] == t[..i];
        assert Join(parts[1..], '=') == t[i + 1..];
    } else if t != "" {
      assert StartsWith(t, "#");
    }
  }

  /** One step of the loop: a parsed entry is stored only when the dictionary's entry for the
      key is not truthy and the value is not empty. */
  function ApplyEntry(env: Env, parsed: Option<Entry>): Env {
    match parsed
    case None => env
    case Some(e) => if !Truthy(env, e.key) && e.value != "" then env[e.key := e.value] else env
  }

  /** What each line of the file contributes, in file order. */
  function ParseAll(lines: seq<string>): (r: seq<Option<Entry>>)
    ensures |r| == |lines| && forall k | 0 <= k < |lines| :: r[k] == ParseLine(lines[k])
  {
    seq(|lines|, k requires 0 <= k < |lines| => ParseLine(lines[k]))
  }

  /** The loop over the parsed lines, in file order. */
  function MergeEntries(env: Env, entries: seq<Option<Entry>>): Env
    decreases |entries|
  {
    if entries == [] then env else MergeEntries(ApplyEntry(env, entries[0]), entries[1..])
  }

  /** The dictionary after the `forEach` of lines 15-26. */
  function MergeLines(env: Env, lines: seq<string>): Env {
    MergeEntries(env, ParseAll(lines))
  }

  /** The value of the first entry that gives `key` a non-empty value, if any does. */
  function FirstAssigned(entries: seq<Option<Entry>>, key: string): (r: Option<string>)
    ensures r.Some? ==> r.value != ""
  {
    if entries == [] then None
    else if entries[0].Some? && entries[0].value.key == key && entries[0].value.value != "" then
      Some(entries[0].value.value)
    else
      FirstAssigned(entries[1..], key)
  }

  /** The entry for `key` after the merge, stated independently of the loop: a truthy entry
      stays; otherwise the first non-empty value the file gives the key, if any; otherwise the
      entry as it was (possibly absent). */
  function MergedEntry(env: Env, entries: seq<Option<Entry>>, key: string): Option<string> {
    if !Truthy(env, key) && FirstAssigned(entries, key).Some? then FirstAssigned(entries, key)
    else if key in env then Some(env[key])
    else None
  }

  /** The loop computes MergedEntry for every key. */
  lemma {:induction false} MergeEntriesMeaning(env: Env, entries: seq<Option<Entry>>, key: string)
    ensures (key in MergeEntries(env, entries)) == MergedEntry(env, entries, key).Some?
    ensures key in MergeEntries(env, entries) ==>
      MergeEntries(env, entries)[key] == MergedEntry(env, entries, key).value
    decreases |entries|
  {
    if entries != [] {
      var env1 := ApplyEntry(env, entries[0]);
      MergeEntriesMeaning(env1, entries[1..], key);
      match entries[0]
      case None =>
      case Some(e) =>
        if e.key == key && !Truthy(env, key) && e.value != "" {
          assert Truthy(env1, key);
        } else {
          assert Truthy(env1, key) == Truthy(env, key);
        }
    }
  }

  /** An entry that already has a non-empty value is never overwritten. */
  lemma NonEmptyEntryKept(env: Env, lines: seq<string>, key: string)
    requires key in env && env[key] != ""
    ensures key in MergeLines(env, lines) && MergeLines(env, lines)[key] == env[key]
  {
    MergeEntriesMeaning(env, ParseAll(lines), key);
  }

  /** For a key without a truthy entry, the first line that gives it a non-empty value wins;
      later lines for the same key are ignored. */
  lemma FirstNonEmptyValueWins(env: Env, lines: seq<string>, key: string, value: string)
    requires !Truthy(env, key) && FirstAssigned(ParseAll(lines), key) == Some(value)
    ensures key in MergeLines(env, lines) && MergeLines(env, lines)[key] == value
  {
    MergeEntriesMeaning(env, ParseAll(lines), key);
  }

  /** Nothing else changes: a key that no line gives a non-empty value keeps its entry, or
      stays absent. */
  lemma UnassignedKeyUnchanged(env: Env, lines: seq<string>, key: string)
    requires FirstAssigned(ParseAll(lines), key).None?
    ensures (key in MergeLines(env, lines)) == (key in env)
    ensures key in env ==> MergeLines(env, lines)[key] == env[key]
  {
    MergeEntriesMeaning(env, ParseAll(lines), key);
  }

  /** A key named like an inherited member (`toString`, `constructor`, ...) that the dictionary
      does not hold reads as truthy, so the file can never add it. */
  lemma InheritedKeyNeverAdded(env: Env, lines: seq<string>, key: string)
    requires key !in env && JsObjects.IsInherited(key)
    ensures key !in MergeLines(env, lines)
  {
    MergeEntriesMeaning(env, ParseAll(lines), key);
  }

  /** Lines 16-19: a line that is blank after trimming, a comment, or has no `=` or nothing
      before its first `=`, yields no entry. */
  lemma SkippedLine(line: string)
    requires var t := Trim(line); t == "" || t[0] == '#' || '=' !in t || t[0] == '='
    ensures ParseLine(line).None?
  {
    ParseLineMeaning(line);
  }

  /** Line 21: a line, not a comment, whose value after the first `=` trims to nothing yields
      an entry with an empty value. */
  lemma EmptyValueLine(line: string, i: nat)
    requires var t := Trim(line);
      0 < i < |t| && t[0] != '#' && t[i] == '=' && '=' !in t[..i] && Trim(t[i + 1..]) == ""
    ensures ParseLine(line).Some? && ParseLine(line).value.value == ""
  {
    ParseLineMeaning(line);
    IndexOfAt(Trim(line), '=', i);
  }

  /** A line without an entry, or with an empty value, leaves any dictionary as it is. */
  predicate Inert(line: string) {
    ParseLine(line).None? || ParseLine(line).value.value == ""
  }

  lemma {:induction false} MergeEntriesAppend(env: Env, a: seq<Option<Entry>>, b: seq<Option<Entry>>)
    ensures MergeEntries(env, a + b) == MergeEntries(MergeEntries(env, a), b)
    decreases |a|
  {
    if a == [] {
      assert a + b == b;
    } else {
      assert (a + b)[0] == a[0] && (a + b)[1..] == a[1..] + b;
      MergeEntriesAppend(ApplyEntry(env, a[0]), a[1..], b);
    }
  }

  lemma ParseAllAppend(a: seq<string>, b: seq<string>)
    ensures ParseAll(a + b) == ParseAll(a) + ParseAll(b)
  {
    var l, r := ParseAll(a + b), ParseAll(a) + ParseAll(b);
    assert |l| == |r|;
    forall k | 0 <= k < |l| ensures l[k] == r[k] {
      if k < |a| { assert (a + b)[k] == a[k]; } else { assert (a + b)[k] == b[k - |a|]; }
    }
  }

  /** An entry with nothing to store can be dropped. */
  lemma InertEntryDropped(env: Env, a: seq<Option<Entry>>, x: Option<Entry>, b: seq<Option<Entry>>)
    requires x.None? || x.value.value == ""
    ensures MergeEntries(env, a + [x] + b) == MergeEntries(env, a + b)
  {
    MergeEntriesAppend(env, a + [x], b);
    MergeEntriesAppend(env, a, [x]);
    MergeEntriesAppend(env, a, b);
    var mid := MergeEntries(env, a);
    assert MergeEntries(mid, [x]) == MergeEntries(ApplyEntry(mid, x), [x][1..]);
  }

  /** Such a line can be dropped from the file without changing the result. */
  lemma InertLineDropped(env: Env, before: seq<string>, line: string, after: seq<string>)
    requires Inert(line)
    ensures MergeLines(env, before + [line] + after) == MergeLines(env, before + after)
  {
    ParseAllAppend(before + [line], after);
    ParseAllAppend(before, [line]);
    ParseAllAppend(before, after);
    assert ParseAll([line]) == [ParseLine(line)];
    InertEntryDropped(env, ParseAll(before), ParseLine(line), ParseAll(after));
  }

  /** One turn of the loop over the parsed entries. */
  lemma MergeEntriesStep(env: Env, entries: seq<Option<Entry>>, i: nat)
    requires i < |entries|
    ensures MergeEntries(env, entries[i..]) == MergeEntries(ApplyEntry(env, entries[i]), entries[i + 1..])
  {
    assert entries[i..][0] == entries[i] && entries[i..][1..] == entries[i + 1..];
  }

  /** Lines 11-30: merge the lines of `docker.env`, when it could be read, into `env`. */
  method LoadDockerEnv(env0: Env, dockerEnv: Option<string>) returns (env: Env)
    ensures dockerEnv.None? ==> env == env0
    ensures dockerEnv.Some? ==> env == MergeLines(env0, Split(dockerEnv.value, '\n'))
    ensures forall key | key in env0 && env0[key] != "" :: key in env && env[key] == env0[key]
  {
    env := env0;
    if dockerEnv.Some? {
      var lines := Split(dockerEnv.value, '\n');
      ghost var entries := ParseAll(lines);
      var i := 0;
      assert entries[i..] == entries;
      while i < |lines|
        invariant 0 <= i <= |lines|
        invariant MergeEntries(env, entries[i..]) == MergeEntries(env0, entries)
      {
        MergeEntriesStep(env, entries, i);
        // lines 16-20: trim, skip blanks and comments, split at the first '='
        var parsed := ParseLine(lines[i]);
        // lines 21-23: store the value unless the entry is already truthy
        if parsed.Some? && !Truthy(env, parsed.value.key) && parsed.value.value != "" {
          env := env[parsed.value.key := parsed.value.value];
        }
        i := i + 1;
      }
      assert entries[i..] == [];
      forall key | key in env0 && env0[key] != "" ensures key in env && env[key] == env0[key] {
        NonEmptyEntryKept(env0, lines, key);
      }
    }
  }

  function HexDigit(d: nat): char
    requires d < 16
  {
    "0123456789abcdef"[d]
  }

  /** How JSON.stringify writes one character inside a string literal. */
  function JsonEscape(c: char): string {
    if c == '\U{8}' then "\\b"
    else if c == '\t' then "\\t"
    else if c == '\n' then "\\n"
    else if c == '\U{C}' then "\\f"
    else if c == '\r' then "\\r"
    else if c == '"' then "\\\""
    else if c == '\\' then "\\\\"
    else if c < ' ' then "\\u00" + [HexDigit(c as int / 16), HexDigit(c as int % 16)]
    else [c]
  }

  function JsonEscapeAll(s: string): string {
    if s == [] then "" else JsonEscape(s[0]) + JsonEscapeAll(s[1..])
  }

  /** JSON.stringify of a string: the escaped text between double quotes. */
  function JsonString(s: string): (r: string)
    ensures |r| >= 2 && r[0] == '"' && r[|r| - 1] == '"'
  {
    "\"" + JsonEscapeAll(s) + "\""
  }

  const ApiKeyDefine := "process.env.API_KEY"
  const GeminiApiKeyDefine := "process.env.GEMINI_API_KEY"

  /** Lines 48-51: the compile-time replacements. Both names are replaced by the JSON text of
      the one `GEMINI_API_KEY` entry; with no entry, JSON.stringify yields `undefined` (None). */
  function Defines(env: Env): (d: map<string, Option<string>>)
    ensures d.Keys == {ApiKeyDefine, GeminiApiKeyDefine}
    ensures d[ApiKeyDefine] == d[GeminiApiKeyDefine]
    ensures d[ApiKeyDefine].Some? <==> "GEMINI_API_KEY" in env
    ensures "GEMINI_API_KEY" in env ==> d[ApiKeyDefine] == Some(JsonString(env["GEMINI_API_KEY"]))
  {
    var value := if "GEMINI_API_KEY" in env then Some(JsonString(env["GEMINI_API_KEY"])) else None;
    map[ApiKeyDefine := value, GeminiApiKeyDefine := value]
  }
}
