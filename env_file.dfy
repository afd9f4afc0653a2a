/** The `.env` file as the AgentSpace and OAuth managers rewrite it
    (`_update_env_var` in installation_scripts/manage_agentspace.py and,
    identically, in installation_scripts/manage_oauth.py): the file is read
    as lines, the first entry for the key is replaced or a new entry is
    appended, and the lines are written back. */
module EnvFile {
  import opened Wrappers
  import opened Strings

  /** `env.get(k)` is truthy: the variable is present and not empty. */
  predicate IsSet(env: map<string, string>, k: string) {
    k in env && env[k] != ""
  }

  /** `env.get(k, d)`: the variable's value, or `d` when it is absent. */
  function GetOr(env: map<string, string>, k: string, d: string): (r: string)
    ensures k in env ==> r == env[k]
    ensures k !in env ==> r == d
  {
    if k in env then env[k] else d
  }

  /** `[var for var in required if not env.get(var)]`. */
  function MissingVars(required: seq<string>, env: map<string, string>): (r: seq<string>)
    ensures |r| <= |required|
  {
    if required == [] then []
    else (if IsSet(env, required[0]) then [] else [required[0]]) + MissingVars(required[1..], env)
  }

  /** The missing variables are exactly the required ones that are unset. */
  lemma {:induction false} MissingVarsMembers(required: seq<string>, env: map<string, string>)
    ensures forall x :: x in MissingVars(required, env) <==> x in required && !IsSet(env, x)
    decreases |required|
  {
    if required != [] {
      MissingVarsMembers(required[1..], env);
      assert forall x :: x in required <==> x == required[0] || x in required[1..];
    }
  }

  /** Nothing is missing exactly when every required variable is set. */
  lemma {:induction false} MissingVarsEmpty(required: seq<string>, env: map<string, string>)
    ensures MissingVars(required, env) == [] <==> forall k :: 0 <= k < |required| ==> IsSet(env, required[k])
    decreases |required|
  {
    if required != [] {
      MissingVarsEmpty(required[1..], env);
      assert forall k :: 1 <= k < |required| ==> required[k] == required[1..][k - 1];
    }
  }

  /** The missing variables keep the order in which they are required. */
  lemma {:induction false} MissingVarsAppend(a: seq<string>, b: seq<string>, env: map<string, string>)
    ensures MissingVars(a + b, env) == MissingVars(a, env) + MissingVars(b, env)
    decreases |a|
  {
    if a == [] {
      assert a + b == b;
    } else {
      assert (a + b)[0] == a[0];
      assert (a + b)[1..] == a[1..] + b;
      MissingVarsAppend(a[1..], b, env);
    }
  }

  /** `''.join(lines)`, which is what `writelines` stores. */
  function Concat(lines: seq<string>): string {
    if lines == [] then "" else lines[0] + Concat(lines[1..])
  }

  /** Lines as `readlines` returns them: none is empty, each holds a newline
      only as its last character, and every line but the last ends with one. */
  predicate WellFormed(lines: seq<string>) {
    forall k :: 0 <= k < |lines| ==>
      && lines[k] != []
      && '\n' !in lines[k][..|lines[k]| - 1]
      && (k < |lines| - 1 ==> lines[k][|lines[k]| - 1] == '\n')
  }

  /** `f.readlines()`: the text cut after every newline. */
  function ReadLines(text: string): (r: seq<string>)
    ensures Concat(r) == text
    ensures WellFormed(r)
    decreases |text|
  {
    match IndexOf(text, '\n')
    case None => if text == [] then [] else [text]
    case Some(i) =>
      var rest := ReadLines(text[i + 1..]);
      var r := [text[..i + 1]] + rest;
      assert r[1..] == rest;
      assert text == text[..i + 1] + text[i + 1..];
      assert text[..i + 1][..i] == text[..i];
      r
  }

  /** Reading back what was written gives the same lines. */
  lemma {:induction false} ReadConcat(lines: seq<string>)
    requires WellFormed(lines)
    ensures ReadLines(Concat(lines)) == lines
    decreases |lines|
  {
    if lines != [] {
      var head := lines[0];
      var rest := lines[1..];
      var text := Concat(lines);
      assert text == head + Concat(rest);
      assert WellFormed(rest) by {
        forall k | 0 <= k < |rest| ensures rest[k] == lines[k + 1] { }
      }
      if head[|head| - 1] == '\n' {
        assert head == head[..|head| - 1] + ['\n'];
        IndexOfAppend(head, Concat(rest), '\n');
        assert IndexOf(head, '\n') == Some(|head| - 1);
        assert text[..|head|] == head && text[|head|..] == Concat(rest);
        ReadConcat(rest);
      } else {
        assert rest == [];
        assert text == head;
        assert '\n' !in head;
      }
    }
  }

  /** The key of an entry line (`line.split('=', 1)[0].strip()`), for a line
      that is neither blank nor a comment and has an `=`. */
  function KeyOf(line: string): Option<string> {
    var s := Strip(line);
    if s != [] && s[0] != '#' && '=' in line then Some(Strip(line[..IndexOf(line, '=').value]))
    else None
  }

  /** `line` is an entry for `key`. */
  predicate EntryFor(line: string, key: string) {
    KeyOf(line) == Some(key)
  }

  /** The test `_update_env_var` makes on each line, spelled out. */
  lemma EntryCheck(line: string, key: string)
    ensures EntryFor(line, key) <==>
      var s := Strip(line);
      s != [] && s[0] != '#' && '=' in line && Strip(line[..IndexOf(line, '=').value]) == key
  {
  }

  /** The line written for `key`. */
  function EntryLine(key: string, value: string): string {
    key + "=" + value + "\n"
  }

  /** A key that reads back from its own entry line. */
  predicate ValidKey(key: string) {
    key != [] && '=' !in key && '\n' !in key && key[0] != '#'
    && !IsSpace(key[0]) && !IsSpace(key[|key| - 1])
  }

  /** A name of capitals and underscores, the form of every variable the
      managers write. */
  predicate UpperName(key: string) {
    key != [] && key[0] != '_' && forall k :: 0 <= k < |key| ==> key[k] == '_' || 'A' <= key[k] <= 'Z'
  }

  lemma UpperNameValid(key: string)
    requires UpperName(key)
    ensures ValidKey(key)
  {
    assert key[|key| - 1] == '_' || 'A' <= key[|key| - 1] <= 'Z';
  }

  lemma KeyOfEntryLine(key: string, value: string)
    requires ValidKey(key)
    ensures EntryFor(EntryLine(key, value), key)
  {
    var line := EntryLine(key, value);
    assert line[0] == key[0];
    assert LeadingSpace(line) == 0;
    var s := Strip(line);
    StripShape(line);
    assert s != [] by {
      assert !IsSpace(line[0]);
    }
    assert s[0] == line[0];
    assert line[|key|] == '=';
    assert line[..|key|] == key;
    assert IndexOf(line, '=') == Some(|key|);
    StripOfStripped(key);
  }

  /** A final newline does not change the key of a line. */
  lemma KeyOfTerminated(line: string, key: string)
    ensures EntryFor(line + "\n", key) <==> EntryFor(line, key)
  {
    StripAppendSpace(line, '\n');
    if '=' in line {
      IndexOfAppend(line, "\n", '=');
      var i := IndexOf(line, '=').value;
      assert (line + "\n")[..i] == line[..i];
    }
  }

  /** Index of the first entry line for `key`. */
  function FirstEntry(lines: seq<string>, key: string): (r: Option<nat>)
    ensures r.Some? ==> r.value < |lines|
  {
    if lines == [] then None
    else if EntryFor(lines[0], key) then Some(0)
    else match FirstEntry(lines[1..], key)
      case None => None
      case Some(k) => Some(k + 1)
  }

  /** The first entry is an entry, and no line before it is one. */
  lemma {:induction false} FirstEntrySome(lines: seq<string>, key: string)
    requires FirstEntry(lines, key).Some?
    ensures EntryFor(lines[FirstEntry(lines, key).value], key)
    ensures forall k :: 0 <= k < FirstEntry(lines, key).value ==> !EntryFor(lines[k], key)
    decreases |lines|
  {
    if !EntryFor(lines[0], key) {
      var rest := lines[1..];
      FirstEntrySome(rest, key);
      var i := FirstEntry(rest, key).value;
      assert FirstEntry(lines, key) == Some(i + 1);
      assert lines[i + 1] == rest[i];
      forall k | 0 < k < i + 1 ensures !EntryFor(lines[k], key) {
        assert lines[k] == rest[k - 1];
      }
    }
  }

  /** There is no first entry exactly when no line is an entry. */
  lemma {:induction false} FirstEntryNone(lines: seq<string>, key: string)
    ensures FirstEntry(lines, key).None? <==> forall k :: 0 <= k < |lines| ==> !EntryFor(lines[k], key)
    decreases |lines|
  {
    if lines != [] {
      var rest := lines[1..];
      FirstEntryNone(rest, key);
      if !EntryFor(lines[0], key) {
        assert forall k :: 0 < k < |lines| ==> lines[k] == rest[k - 1];
        if FirstEntry(lines, key).Some? {
          FirstEntrySome(lines, key);
        }
      }
    }
  }

  /** The first entry is the one before which no line is an entry. */
  lemma {:induction false} FirstEntryAt(lines: seq<string>, key: string, i: nat)
    requires i < |lines| && EntryFor(lines[i], key)
    requires forall k :: 0 <= k < i ==> !EntryFor(lines[k], key)
    ensures FirstEntry(lines, key) == Some(i)
    decreases i
  {
    if i > 0 {
      var rest := lines[1..];
      assert rest[i - 1] == lines[i];
      assert forall k :: 0 <= k < i - 1 ==> rest[k] == lines[k + 1];
      FirstEntryAt(rest, key, i - 1);
    }
  }

  /** The `for` loop of `_update_env_var`: the index of the first entry line
      for `key`, or `|lines|` when there is none. */
  method ScanForKey(lines: seq<string>, key: string) returns (i: nat)
    ensures i <= |lines|
    ensures i < |lines| ==> EntryFor(lines[i], key)
    ensures forall k :: 0 <= k < i ==> !EntryFor(lines[k], key)
  {
    i := 0;
    while i < |lines|
      invariant i <= |lines|
      invariant forall k :: 0 <= k < i ==> !EntryFor(lines[k], key)
    {
      var line := lines[i];
      var stripped := Strip(line);
      if stripped != [] && stripped[0] != '#' && '=' in line {
        var existingKey := Strip(line[..IndexOf(line, '=').value]);
        if existingKey == key {
          EntryCheck(line, key);
          return;
        }
      }
      EntryCheck(line, key);
      i := i + 1;
    }
  }

  /** The lines as `_update_env_var` writes them: the first entry for the
      key is replaced; otherwise the new entry is appended right after the
      last line, even when that line has no final newline. */
  function UpdatedLinesAsWritten(lines: seq<string>, key: string, value: string): seq<string> {
    match FirstEntry(lines, key)
    case Some(i) => lines[i := EntryLine(key, value)]
    case None => lines + [EntryLine(key, value)]
  }

  /** Text after an entry line does not change its key. */
  lemma KeyOfAppend(line: string, t: string)
    requires KeyOf(line).Some?
    ensures KeyOf(line + t) == KeyOf(line)
  {
    var l := LeadingSpace(line);
    StripShape(line);
    StripShape(line + t);
    LeadingSpaceAppendText(line, t);
    assert (line + t)[l] == line[l];
    IndexOfAppend(line, t, '=');
    var i := IndexOf(line, '=').value;
    assert (line + t)[..i] == line[..i];
  }

  /** With a last line that has no final newline, the appended entry is
      glued onto that line: the written file reads back as one line whose
      key is the old line's, so the new entry is lost. */
  lemma AppendedEntryLost(line: string, key: string, value: string)
    requires '\n' !in line && '\n' !in key && '\n' !in value
    requires KeyOf(line).Some? && KeyOf(line) != Some(key)
    ensures ReadLines(line) == [line]
    ensures UpdatedLinesAsWritten([line], key, value) == [line, EntryLine(key, value)]
    ensures ReadLines(Concat(UpdatedLinesAsWritten([line], key, value))) == [line + EntryLine(key, value)]
    ensures FirstEntry(ReadLines(Concat(UpdatedLinesAsWritten([line], key, value))), key) == None
  {
    var e := EntryLine(key, value);
    assert line != [];
    assert FirstEntry([line], key) == None by {
      assert !EntryFor([line][0], key);
    }
    assert UpdatedLinesAsWritten([line], key, value) == [line] + [e];
    assert [line] + [e] == [line, e];
    assert Concat([line, e]) == line + e by {
      assert Concat([e]) == e;
    }
    assert (line + e)[..|line + e| - 1] == line + (key + "=" + value);
    assert WellFormed([line + e]);
    ReadConcat([line + e]);
    assert Concat([line + e]) == line + e;
    KeyOfAppend(line, e);
  }

  /** The smallest instance: the file `A=1` with no final newline, updated
      with `B=2`, reads back as the single line `A=1B=2`. */
  lemma AppendedEntryLostSample()
    ensures FirstEntry(ReadLines(Concat(UpdatedLinesAsWritten(ReadLines("A=1"), "B", "2"))), "B") == None
  {
    assert LeadingSpace("A=1") == 0;
    assert IndexOf("A=1", '=') == Some(1);
    assert "A=1"[..1] == "A";
    StripOfStripped("A");
    AppendedEntryLost("A=1", "B", "2");
  }

  /** `lines` with a newline added to the last line if it lacks one. */
  function Terminated(lines: seq<string>): (r: seq<string>)
    requires WellFormed(lines)
    ensures |r| == |lines|
  {
    if lines == [] || lines[|lines| - 1][|lines[|lines| - 1]| - 1] == '\n' then lines
    else lines[|lines| - 1 := lines[|lines| - 1] + "\n"]
  }

  /** The lines the update is meant to write: the first entry for the key is
      replaced; otherwise the new entry is appended on a line of its own. */
  function UpdatedLines(lines: seq<string>, key: string, value: string): (r: seq<string>)
    requires WellFormed(lines)
    ensures FirstEntry(lines, key).Some? ==> r == lines[FirstEntry(lines, key).value := EntryLine(key, value)]
    ensures FirstEntry(lines, key).None? ==> r == Terminated(lines) + [EntryLine(key, value)]
  {
    match FirstEntry(lines, key)
    case Some(i) => lines[i := EntryLine(key, value)]
    case None => Terminated(lines) + [EntryLine(key, value)]
  }

  /** Terminating the last line does not change which lines are entries. */
  lemma TerminatedEntry(lines: seq<string>, key: string, k: nat)
    requires WellFormed(lines) && k < |lines|
    ensures EntryFor(Terminated(lines)[k], key) == EntryFor(lines[k], key)
  {
    var last := lines[|lines| - 1];
    if k == |lines| - 1 && last[|last| - 1] != '\n' {
      assert Terminated(lines)[k] == lines[k] + "\n";
      KeyOfTerminated(lines[k], key);
    }
  }

  lemma TerminatedWellFormed(lines: seq<string>, extra: string)
    requires WellFormed(lines) && WellFormed([extra])
    ensures WellFormed(Terminated(lines) + [extra])
  {
    var r := Terminated(lines) + [extra];
    if lines != [] {
      var last := lines[|lines| - 1];
      if last[|last| - 1] != '\n' {
        assert (last + "\n")[..|last|] == last;
        assert r[|lines| - 1] == last + "\n";
      }
    }
    assert forall k :: 0 <= k < |lines| - 1 ==> r[k] == lines[k];
  }

  lemma UpdatedWellFormed(lines: seq<string>, key: string, value: string)
    requires WellFormed(lines) && '\n' !in key && '\n' !in value
    ensures WellFormed(UpdatedLines(lines, key, value))
  {
    var e := EntryLine(key, value);
    assert e[..|e| - 1] == key + "=" + value;
    assert '\n' !in e[..|e| - 1];
    assert WellFormed([e]);
    if FirstEntry(lines, key).None? {
      TerminatedWellFormed(lines, e);
    }
  }

  /** After an update the key's first entry carries the new value: the
      entry replaced in place, or appended last when there was none. */
  lemma UpdatedFirstEntry(lines: seq<string>, key: string, value: string)
    requires WellFormed(lines) && ValidKey(key)
    ensures var r := UpdatedLines(lines, key, value);
      FirstEntry(r, key).Some? && r[FirstEntry(r, key).value] == EntryLine(key, value)
  {
    var r := UpdatedLines(lines, key, value);
    KeyOfEntryLine(key, value);
    match FirstEntry(lines, key)
    case Some(i) =>
      FirstEntrySome(lines, key);
      assert r[i] == EntryLine(key, value);
      assert forall k :: 0 <= k < i ==> r[k] == lines[k];
      FirstEntryAt(r, key, i);
    case None =>
      FirstEntryNone(lines, key);
      forall k | 0 <= k < |lines| ensures !EntryFor(r[k], key) {
        TerminatedEntry(lines, key, k);
      }
      assert r[|lines|] == EntryLine(key, value);
      FirstEntryAt(r, key, |lines|);
  }

  /** Updating twice with the same value is the same as updating once. */
  lemma UpdateIdempotent(lines: seq<string>, key: string, value: string)
    requires WellFormed(lines) && ValidKey(key) && '\n' !in value
    ensures WellFormed(UpdatedLines(lines, key, value))
            && UpdatedLines(UpdatedLines(lines, key, value), key, value) == UpdatedLines(lines, key, value)
  {
    UpdatedWellFormed(lines, key, value);
    UpdatedFirstEntry(lines, key, value);
    var r := UpdatedLines(lines, key, value);
    var i := FirstEntry(r, key).value;
    assert r[i := EntryLine(key, value)] == r;
  }

  /** Written and read back, the updated file yields its key's entry with
      the new value. */
  lemma UpdateThenRead(text: string, key: string, value: string)
    requires ValidKey(key) && '\n' !in value
    ensures var r := UpdatedLines(ReadLines(text), key, value);
      && ReadLines(Concat(r)) == r
      && FirstEntry(r, key).Some? && r[FirstEntry(r, key).value] == EntryLine(key, value)
  {
    var lines := ReadLines(text);
    UpdatedWellFormed(lines, key, value);
    ReadConcat(UpdatedLines(lines, key, value));
    UpdatedFirstEntry(lines, key, value);
  }

  /** The file text after one `_update_env_var`. */
  function UpdatedText(text: string, key: string, value: string): string {
    Concat(UpdatedLines(ReadLines(text), key, value))
  }

  /** The file text after one `_update_env_var` as the scripts perform it:
      a new entry is appended after the last line as that line stands. */
  function UpdatedTextAsWritten(text: string, key: string, value: string): string {
    Concat(UpdatedLinesAsWritten(ReadLines(text), key, value))
  }

  /** The file is empty or ends with a newline. */
  predicate Closed(text: string) {
    text == [] || text[|text| - 1] == '\n'
  }

  lemma {:induction false} ConcatAppend(lines: seq<string>, extra: seq<string>)
    ensures Concat(lines + extra) == Concat(lines) + Concat(extra)
    decreases |lines|
  {
    if lines == [] {
      assert lines + extra == extra;
    } else {
      assert (lines + extra)[1..] == lines[1..] + extra;
      ConcatAppend(lines[1..], extra);
    }
  }

  /** The text of some lines ends as their last line does. */
  lemma ConcatLast(lines: seq<string>)
    requires lines != [] && lines[|lines| - 1] != []
    ensures var t, last := Concat(lines), lines[|lines| - 1];
      t != [] && t[|t| - 1] == last[|last| - 1]
  {
    var n := |lines|;
    ConcatAppend(lines[..n - 1], [lines[n - 1]]);
    assert lines[..n - 1] + [lines[n - 1]] == lines;
    assert [lines[n - 1]][1..] == [];
  }

  /** The scripts' update writes the intended text whenever the key already
      has an entry or the file ends with a newline; only an appended entry
      after an unterminated last line differs (see `AppendedEntryLost`). */
  lemma AsWrittenAgrees(text: string, key: string, value: string)
    requires Closed(text) || FirstEntry(ReadLines(text), key).Some?
    ensures UpdatedTextAsWritten(text, key, value) == UpdatedText(text, key, value)
  {
    var lines := ReadLines(text);
    if FirstEntry(lines, key).None? && lines != [] {
      ConcatLast(lines);
      assert Terminated(lines) == lines;
    }
  }

  /** The update of a file that ends with a newline ends with one. */
  lemma UpdatedTextClosed(text: string, key: string, value: string)
    requires Closed(text)
    ensures Closed(UpdatedText(text, key, value))
  {
    var lines := ReadLines(text);
    if lines != [] {
      ConcatLast(lines);
    }
    UpdatedLinesClosed(lines, key, value);
    ConcatLast(UpdatedLines(lines, key, value));
  }

  /** The intended update of lines whose last one ends with a newline
      leaves a last line that ends with one. */
  lemma UpdatedLinesClosed(lines: seq<string>, key: string, value: string)
    requires WellFormed(lines)
    requires lines != [] ==> lines[|lines| - 1][|lines[|lines| - 1]| - 1] == '\n'
    ensures var r := UpdatedLines(lines, key, value);
      r != [] && r[|r| - 1] != [] && r[|r| - 1][|r[|r| - 1]| - 1] == '\n'
  {
    var r := UpdatedLines(lines, key, value);
    var e := EntryLine(key, value);
    assert e[|e| - 1] == '\n';
    match FirstEntry(lines, key)
    case Some(i) =>
      assert r == lines[i := e];
      if i < |lines| - 1 {
        assert r[|r| - 1] == lines[|lines| - 1];
      }
    case None =>
      assert r == lines + [e];
  }

  /** `line` without its final newline. */
  function Chomp(line: string): (r: string)
    ensures r == line || r + "\n" == line
  {
    if line != [] && line[|line| - 1] == '\n' then line[..|line| - 1] else line
  }

  /** The first entry line for `key` in the file, without its newline. */
  function Lookup(text: string, key: string): Option<string> {
    var lines := ReadLines(text);
    match FirstEntry(lines, key)
    case None => None
    case Some(i) => Some(Chomp(lines[i]))
  }

  /** After an update the file's entry for the key is `key=value`; after
      the scripts' update too, unless the key is new and the file lacks a
      final newline. */
  lemma UpdateThenLookup(text: string, key: string, value: string)
    requires ValidKey(key) && '\n' !in value
    ensures Lookup(UpdatedText(text, key, value), key) == Some(key + "=" + value)
    ensures Closed(text) || FirstEntry(ReadLines(text), key).Some? ==>
      Lookup(UpdatedTextAsWritten(text, key, value), key) == Some(key + "=" + value)
  {
    UpdateThenRead(text, key, value);
    assert Chomp(EntryLine(key, value)) == key + "=" + value;
    if Closed(text) || FirstEntry(ReadLines(text), key).Some? {
      AsWrittenAgrees(text, key, value);
    }
  }

  /** Entries for `key` sit at the same lines, holding the same text up to
      a final newline, after `other` is updated. */
  lemma UpdatedLinesKeepEntries(lines: seq<string>, key: string, other: string, value: string, j: nat)
    requires WellFormed(lines) && ValidKey(other) && other != key
    requires j < |lines|
    ensures var r := UpdatedLines(lines, other, value);
      && (EntryFor(r[j], key) <==> EntryFor(lines[j], key))
      && (EntryFor(lines[j], key) ==> Chomp(r[j]) == Chomp(lines[j]))
  {
    var r := UpdatedLines(lines, other, value);
    match FirstEntry(lines, other)
    case Some(i) =>
      if j == i {
        FirstEntrySome(lines, other);
        KeyOfEntryLine(other, value);
      }
    case None =>
      TerminatedEntry(lines, key, j);
      var last := lines[|lines| - 1];
      if j == |lines| - 1 && last[|last| - 1] != '\n' {
        assert r[j] == lines[j] + "\n";
        assert (lines[j] + "\n")[..|lines[j]|] == lines[j];
      }
  }

  /** The lines that are entries for `key` are the same after `other` is
      updated; a line appended for `other` is not one. */
  lemma UpdatedLinesKeepEntryLines(lines: seq<string>, key: string, other: string, value: string)
    requires WellFormed(lines) && ValidKey(other) && other != key
    ensures var r := UpdatedLines(lines, other, value);
      forall j :: 0 <= j < |r| ==> (EntryFor(r[j], key) <==> j < |lines| && EntryFor(lines[j], key))
  {
    var r := UpdatedLines(lines, other, value);
    forall j | 0 <= j < |r| ensures EntryFor(r[j], key) <==> j < |lines| && EntryFor(lines[j], key) {
      if j < |lines| {
        UpdatedLinesKeepEntries(lines, key, other, value, j);
      } else {
        KeyOfEntryLine(other, value);
        assert r[j] == EntryLine(other, value);
      }
    }
  }

  /** The first entry for `key` is where it was, with the same text, after
      `other` is updated. */
  lemma UpdatedLinesKeepFirst(lines: seq<string>, key: string, other: string, value: string)
    requires WellFormed(lines) && ValidKey(other) && other != key
    ensures var r := UpdatedLines(lines, other, value);
      && FirstEntry(r, key) == FirstEntry(lines, key)
      && (FirstEntry(lines, key).Some? ==>
            Chomp(r[FirstEntry(lines, key).value]) == Chomp(lines[FirstEntry(lines, key).value]))
  {
    var r := UpdatedLines(lines, other, value);
    UpdatedLinesKeepEntryLines(lines, key, other, value);
    match FirstEntry(lines, key)
    case Some(i) =>
      FirstEntrySome(lines, key);
      FirstEntryAt(r, key, i);
      UpdatedLinesKeepEntries(lines, key, other, value, i);
    case None =>
      FirstEntryNone(lines, key);
      FirstEntryNone(r, key);
  }

  /** Updating one key leaves the entry of every other key as it was; so
      does the scripts' update, unless the key is new and the file lacks a
      final newline. */
  lemma UpdateKeepsOtherLookup(text: string, key: string, other: string, value: string)
    requires ValidKey(other) && other != key && '\n' !in value
    ensures Lookup(UpdatedText(text, other, value), key) == Lookup(text, key)
    ensures Closed(text) || FirstEntry(ReadLines(text), other).Some? ==>
      Lookup(UpdatedTextAsWritten(text, other, value), key) == Lookup(text, key)
  {
    var lines := ReadLines(text);
    UpdateThenRead(text, other, value);
    UpdatedLinesKeepFirst(lines, key, other, value);
    if Closed(text) || FirstEntry(lines, other).Some? {
      AsWrittenAgrees(text, other, value);
    }
  }

  /** One `_update_env_var`, as a step over the text. */
  function TextStep(text: string, p: (string, string)): string {
    UpdatedText(text, p.0, p.1)
  }

  /** `step` applied for each pair in turn. */
  function Fold(step: (string, (string, string)) -> string, text: string, pairs: seq<(string, string)>): string
    decreases |pairs|
  {
    if pairs == [] then text
    else step(Fold(step, text, pairs[..|pairs| - 1]), pairs[|pairs| - 1])
  }

  /** The file text after `_update_env_var` for each pair in turn. */
  function UpdatedTextAll(text: string, pairs: seq<(string, string)>): string {
    Fold(TextStep, text, pairs)
  }

  /** One `_update_env_var` as the scripts perform it, as a step. */
  function TextStepAsWritten(text: string, p: (string, string)): string {
    UpdatedTextAsWritten(text, p.0, p.1)
  }

  /** The file text after the scripts' `_update_env_var` for each pair in
      turn. */
  function UpdatedTextAllAsWritten(text: string, pairs: seq<(string, string)>): string {
    Fold(TextStepAsWritten, text, pairs)
  }

  /** On a file that ends with a newline, the scripts' updates write the
      intended text, and the file still ends with a newline. */
  lemma {:induction false} AsWrittenAllAgrees(text: string, pairs: seq<(string, string)>)
    requires Closed(text)
    ensures UpdatedTextAllAsWritten(text, pairs) == UpdatedTextAll(text, pairs)
    ensures Closed(UpdatedTextAll(text, pairs))
    decreases |pairs|
  {
    if pairs != [] {
      var init, last := pairs[..|pairs| - 1], pairs[|pairs| - 1];
      AsWrittenAllAgrees(text, init);
      var before := UpdatedTextAll(text, init);
      AsWrittenAgrees(before, last.0, last.1);
      UpdatedTextClosed(before, last.0, last.1);
    }
  }

  /** `env_vars` after `_update_env_var` for each pair in turn. */
  function AssignAll(env: map<string, string>, pairs: seq<(string, string)>): (r: map<string, string>)
    ensures forall i :: 0 <= i < |pairs| ==> pairs[i].0 in r
    ensures forall k :: k in env ==> k in r
    decreases |pairs|
  {
    if pairs == [] then env
    else
      var last := pairs[|pairs| - 1];
      AssignAll(env, pairs[..|pairs| - 1])[last.0 := last.1]
  }

  /** Keys that read back from their entries, values on one line. */
  predicate Writable(pairs: seq<(string, string)>) {
    forall i :: 0 <= i < |pairs| ==> ValidKey(pairs[i].0) && '\n' !in pairs[i].1
  }

  /** Pairs whose keys are all different. */
  predicate DistinctKeys(pairs: seq<(string, string)>) {
    forall a, b :: 0 <= a < b < |pairs| ==> pairs[a].0 != pairs[b].0
  }

  /** Updates of other keys leave an entry as it was; so do the scripts'
      updates of a file that ends with a newline. */
  lemma {:induction false} UpdatesKeepLookup(text: string, pairs: seq<(string, string)>, key: string)
    requires Writable(pairs)
    requires forall i :: 0 <= i < |pairs| ==> pairs[i].0 != key
    ensures Lookup(UpdatedTextAll(text, pairs), key) == Lookup(text, key)
    ensures Closed(text) ==> Lookup(UpdatedTextAllAsWritten(text, pairs), key) == Lookup(text, key)
    decreases |pairs|
  {
    if pairs != [] {
      var init, last := pairs[..|pairs| - 1], pairs[|pairs| - 1];
      UpdatesKeepLookup(text, init, key);
      UpdateKeepsOtherLookup(UpdatedTextAll(text, init), key, last.0, last.1);
    }
    if Closed(text) {
      AsWrittenAllAgrees(text, pairs);
    }
  }

  /** After a run of updates with distinct keys, each key's entry holds
      the value written for it, whatever the file held before; after the
      scripts' updates too when the file ended with a newline. */
  lemma {:induction false} UpdatesThenLookup(text: string, pairs: seq<(string, string)>, i: nat)
    requires Writable(pairs) && DistinctKeys(pairs)
    requires i < |pairs|
    ensures Lookup(UpdatedTextAll(text, pairs), pairs[i].0) == Some(pairs[i].0 + "=" + pairs[i].1)
    ensures Closed(text) ==>
      Lookup(UpdatedTextAllAsWritten(text, pairs), pairs[i].0) == Some(pairs[i].0 + "=" + pairs[i].1)
    decreases |pairs|
  {
    if Closed(text) {
      AsWrittenAllAgrees(text, pairs);
    }
    var init, last := pairs[..|pairs| - 1], pairs[|pairs| - 1];
    var before := UpdatedTextAll(text, init);
    if i == |pairs| - 1 {
      UpdateThenLookup(before, last.0, last.1);
    } else {
      assert init[i] == pairs[i];
      UpdatesThenLookup(text, init, i);
      UpdateKeepsOtherLookup(before, pairs[i].0, last.0, last.1);
    }
  }

  /** With distinct keys, each key's variable holds the value written for
      it; variables not written keep their value. */
  lemma {:induction false} AssignAllValues(env: map<string, string>, pairs: seq<(string, string)>)
    requires DistinctKeys(pairs)
    ensures forall i :: 0 <= i < |pairs| ==> AssignAll(env, pairs)[pairs[i].0] == pairs[i].1
    ensures forall k :: k in env && (forall i :: 0 <= i < |pairs| ==> pairs[i].0 != k) ==>
      AssignAll(env, pairs)[k] == env[k]
    decreases |pairs|
  {
    if pairs != [] {
      var init := pairs[..|pairs| - 1];
      AssignAllValues(env, init);
      forall i | 0 <= i < |pairs| - 1 ensures init[i] == pairs[i] && pairs[i].0 != pairs[|pairs| - 1].0 { }
    }
  }

  /** The `.env` file of a manager and the variables it holds in memory. */
  class EnvFile {
    var content: string
    var envVars: map<string, string>

    constructor(content: string, envVars: map<string, string>)
      ensures this.content == content && this.envVars == envVars
    {
      this.content := content;
      this.envVars := envVars;
    }

    /** `_update_env_var`: rewrite the file with the key's first entry set
        to `value`, or the new entry appended after the last line, and
        record the value in memory. */
    method UpdateEnvVar(key: string, value: string)
      modifies this
      ensures content == UpdatedTextAsWritten(old(content), key, value)
      ensures envVars == old(envVars)[key := value]
    {
      var lines := ReadLines(content);
      var i := ScanForKey(lines, key);
      if i < |lines| {
        FirstEntryAt(lines, key, i);
        lines := lines[i := key + "=" + value + "\n"];
      } else {
        FirstEntryNone(lines, key);
        lines := lines + [key + "=" + value + "\n"];
      }
      content := Concat(lines);
      envVars := envVars[key := value];
    }
  }
}
