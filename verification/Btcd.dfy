/**
  btcd's own argv: a single-dash entry is a run of one-letter options, read letter by letter, and a whitelist
  entry grants one permission only.
 */
module Btcd {
  import opened Wrappers
  import opened ArgvGuard

  const VERSION: string := "version"

  /** The one-letter options, each to its long name; `version` alone takes no value. */
  const SHORT_OPTIONS: map<char, string> := map[
    'a' := "addpeer", 'C' := "configfile", 'b' := "datadir", 'd' := "debuglevel",
    'P' := "rpcpass", 'u' := "rpcuser", 'V' := VERSION, 's' := "service"]

  // What btcd reads.

  /** The options a run of letters sets: the first that takes a value takes the rest, an unknown one ends it. */
  function SetByLetters(letters: string): seq<string> {
    if letters == [] || letters[0] !in SHORT_OPTIONS then []
    else
      var name := SHORT_OPTIONS[letters[0]];
      [name] + if name == VERSION then SetByLetters(letters[1..]) else []
  }

  /** The long names a token sets. */
  function SetBy(token: string): seq<string> {
    if |token| >= 2 && token[0] == '-' && token[1] == '-' then [BeforeEquals(token[2..])]
    else if |token| >= 1 && token[0] == '-' then SetByLetters(token[1..])
    else []
  }

  /** A token setting a name of its own, in order. */
  function Setting(argv: seq<string>, name: string): seq<string> {
    if argv == [] then []
    else Setting(argv[..|argv| - 1], name) + if name in SetBy(argv[|argv| - 1]) then [argv[|argv| - 1]] else []
  }

  /** Letter `j` is read, and sets `name`: nothing but `V` stands ahead of it. */
  predicate SetsAt(letters: string, j: nat, name: string) {
    && j < |letters| && (forall i :: 0 <= i < j ==> letters[i] == 'V')
    && letters[j] in SHORT_OPTIONS && SHORT_OPTIONS[letters[j]] == name
  }

  /** The options a run of letters sets are those of its letters up to the first that is no `V`, that one included. */
  lemma {:induction false} LettersSet(letters: string, name: string)
    ensures name in SetByLetters(letters) <==> exists j: nat :: SetsAt(letters, j, name)
  {
    if letters != [] && letters[0] in SHORT_OPTIONS {
      var rest := letters[1..];
      LettersSet(rest, name);
      assert SHORT_OPTIONS[letters[0]] == VERSION <==> letters[0] == 'V';
      if name in SetByLetters(letters) {
        if SHORT_OPTIONS[letters[0]] == name {
          assert SetsAt(letters, 0, name);
        } else {
          var j: nat :| SetsAt(rest, j, name);
          assert SetsAt(letters, j + 1, name);
        }
      } else if j: nat :| SetsAt(letters, j, name) {
        assert SetsAt(rest, j - 1, name);
      }
    }
  }

  // The guard on the letters.

  function CommandNames(command: seq<string>): set<string> {
    set i | 0 <= i < |command| :: BeforeEquals(WithoutDashes(command[i]))
  }

  predicate IsRun(arg: string) {
    arg != [] && arg[0] == '-' && !(|arg| > 1 && arg[1] == '-')
  }

  predicate AliasRefused(names: set<string>, arg: string) {
    IsRun(arg) && exists name :: name in SetByLetters(arg[1..]) && name in names
  }

  predicate AliasesAccepted(names: set<string>, extraArgs: seq<string>) {
    forall i :: 0 <= i < |extraArgs| ==> !AliasRefused(names, extraArgs[i])
  }

  /** One entry's letters, up to the first that takes a value. */
  method CheckLetters(names: set<string>, letters: string) returns (refused: bool)
    ensures refused <==> exists name :: name in SetByLetters(letters) && name in names
  {
    ghost var seen: seq<string> := [];
    assert letters[0..] == letters;
    for i := 0 to |letters|
      invariant SetByLetters(letters) == seen + SetByLetters(letters[i..])
      invariant forall name :: name in seen ==> name !in names
    {
      assert letters[i..][1..] == letters[i + 1..];
      var name := if letters[i] in SHORT_OPTIONS then Some(SHORT_OPTIONS[letters[i]]) else None;
      if name.Some? && name.value in names {
        assert name.value in SetByLetters(letters[i..]);
        return true;
      }
      if name != Some(VERSION) {
        return false;
      }
      seen := seen + [VERSION];
    }
    return false;
  }

  /** `_check_short_aliases`. */
  method CheckShortAliases(command: seq<string>, extraArgs: seq<string>) returns (error: Option<Error>)
    ensures error == if AliasesAccepted(CommandNames(command), extraArgs) then None else Some(ValueError)
  {
    hide SetByLetters, CommandNames;
    var names := CommandNames(command);
    for i := 0 to |extraArgs|
      invariant AliasesAccepted(names, extraArgs[..i])
    {
      var arg := extraArgs[i];
      assert extraArgs[..i + 1] == extraArgs[..i] + [arg];
      if !IsRun(arg) {
        continue;
      }
      var refused := CheckLetters(names, arg[1..]);
      if refused {
        assert AliasRefused(names, extraArgs[i]);
        return Some(ValueError);
      }
    }
    assert extraArgs[..|extraArgs|] == extraArgs;
    return None;
  }

  /** The adapter's command names each of its options with two dashes and no third. */
  predicate LongSpelled(command: seq<string>) {
    forall i :: 0 <= i < |command| && command[i] != [] && command[i][0] == '-' ==>
      |command[i]| > 2 && command[i][1] == '-' && !Dashed(command[i][2..]) && BeforeEquals(command[i][2..]) != []
  }

  lemma LongNamed(command: seq<string>, i: nat, name: string)
    requires LongSpelled(command) && i < |command| && name in SetBy(command[i])
    ensures name in CommandNames(command) && CanonicalName(name) in ReservedNames(command)
    ensures !Dashed(name) && name != []
  {
    var token := command[i];
    assert token[1..][1..] == token[2..];
    NoDashes(token[2..]);
    assert WithoutDashes(token) == token[2..];
    assert name == BeforeEquals(token[2..]);
    NameBegins(token[2..]);
    assert OptionName(token) == Some(name);
    assert CanonicalName(name) in Names(command);
  }

  /** An argument both checks accept sets nothing the command sets, however it is spelled. */
  lemma AcceptedSetsNone(command: seq<string>, arg: string, i: nat, name: string)
    requires LongSpelled(command) && i < |command| && name in SetBy(command[i])
    requires !Refused(command, arg) && !AliasRefused(CommandNames(command), arg)
    ensures name !in SetBy(arg)
  {
    hide CommandNames, ReservedNames, LongSpelled, SetByLetters;
    LongNamed(command, i, name);
    if name in SetBy(arg) && |arg| >= 2 && arg[0] == '-' && arg[1] == '-' {
      LongNameRead(arg, name);
    }
  }

  lemma LongNameRead(arg: string, name: string)
    requires |arg| >= 2 && arg[0] == '-' && arg[1] == '-' && name == BeforeEquals(arg[2..])
    requires !Dashed(name) && name != []
    ensures OptionName(arg) == Some(name)
  {
    var body := arg[2..];
    assert body != [] && name[0] == body[0] && !Dashed(body);
    NoDashes(body);
    assert arg[1..][1..] == body && arg[1..][0] == '-';
    assert WithoutDashes(arg[1..]) == body;
  }

  lemma {:induction false} NoneMore(command: seq<string>, extraArgs: seq<string>, name: string)
    requires forall i :: 0 <= i < |extraArgs| ==> name !in SetBy(extraArgs[i])
    ensures Setting(command + extraArgs, name) == Setting(command, name)
    decreases extraArgs
  {
    hide SetBy;
    if extraArgs == [] {
      assert command + extraArgs == command;
    } else {
      var front := extraArgs[..|extraArgs| - 1];
      assert (command + extraArgs)[..|command + extraArgs| - 1] == command + front;
      NoneMore(command, front, name);
    }
  }

  /** With both checks passed, every option the command sets is set by the command's own tokens alone. */
  lemma AliasGuardPreserves(command: seq<string>, extraArgs: seq<string>, i: nat, name: string)
    requires LongSpelled(command) && i < |command| && name in SetBy(command[i])
    requires Accepts(command, extraArgs) && AliasesAccepted(CommandNames(command), extraArgs)
    ensures Setting(command + extraArgs, name) == Setting(command, name)
  {
    hide SetBy, Refused, AliasRefused, LongSpelled, CommandNames;
    forall k | 0 <= k < |extraArgs| ensures name !in SetBy(extraArgs[k]) {
      AcceptedSetsNone(command, extraArgs[k], i, name);
    }
    NoneMore(command, extraArgs, name);
  }

  /** A token of the command that is no option is named like none of the one-letter ones. */
  predicate NoneNamed(command: seq<string>) {
    forall i :: 0 <= i < |command| && (command[i] == [] || command[i][0] != '-') ==>
      BeforeEquals(command[i]) !in SHORT_OPTIONS.Values
  }

  /** A run of letters sets nothing but what the letters stand for. */
  lemma {:induction false} LettersNamed(letters: string, name: string)
    requires name in SetByLetters(letters)
    ensures name in SHORT_OPTIONS.Values
  {
    assert SHORT_OPTIONS[letters[0]] in SHORT_OPTIONS.Values;
    if name != SHORT_OPTIONS[letters[0]] {
      LettersNamed(letters[1..], name);
    }
  }

  /** What the command names by a letter's long name, it sets. */
  lemma NamedIsSet(command: seq<string>, i: nat, name: string)
    requires LongSpelled(command) && NoneNamed(command) && i < |command| && name in SHORT_OPTIONS.Values
    ensures BeforeEquals(WithoutDashes(command[i])) == name <==> name in SetBy(command[i])
  {
    var token := command[i];
    if token != [] && token[0] == '-' {
      assert token[1..][1..] == token[2..];
      NoDashes(token[2..]);
      assert WithoutDashes(token) == token[2..];
    }
  }

  /** The letters of an argument are refused exactly where one of them sets what the command sets. */
  lemma AliasAcceptsIff(command: seq<string>, extraArgs: seq<string>)
    requires LongSpelled(command) && NoneNamed(command)
    ensures AliasesAccepted(CommandNames(command), extraArgs) <==>
      forall i, k, name ::
        0 <= i < |extraArgs| && 0 <= k < |command| && "-" <= extraArgs[i] && !("--" <= extraArgs[i]) ==>
          !(name in SetBy(extraArgs[i]) && name in SetBy(command[k]))
  {
    hide LongSpelled, NoneNamed, SetByLetters;
    forall i, k, name | 0 <= i < |extraArgs| && 0 <= k < |command| && IsRun(extraArgs[i])
                        && name in SetByLetters(extraArgs[i][1..])
      ensures BeforeEquals(WithoutDashes(command[k])) == name <==> name in SetBy(command[k])
    {
      LettersNamed(extraArgs[i][1..], name);
      NamedIsSet(command, k, name);
    }
  }

  // The whitelist.

  const WHITELIST: string := "-whitelist="
  const NOBAN: string := "noban"
  const DIRECTIONS: set<string> := {"in", "out"}

  function Split(s: string, separator: char): seq<string> {
    if s == [] then [[]]
    else
      var rest := Split(s[1..], separator);
      if s[0] == separator then [[]] + rest
      else if rest == [] then [[s[0]]]
      else [[s[0]] + rest[0]] + rest[1..]
  }

  function Join(parts: seq<string>, separator: char): string {
    if parts == [] then [] else if |parts| == 1 then parts[0] else parts[0] + [separator] + Join(parts[1..], separator)
  }

  /** What stands ahead of the last separator, and behind it; nothing ahead where there is none. */
  function RPartition(s: string, separator: char): (string, string)
    decreases |s|
  {
    if s == [] then ([], [])
    else if s[|s| - 1] == separator then (s[..|s| - 1], [])
    else
      var (ahead, behind) := RPartition(s[..|s| - 1], separator);
      if separator in s[..|s| - 1] then (ahead, behind + [s[|s| - 1]]) else ([], s)
  }

  /** An entry as btcd spells it, or `None` where it grants anything but `noban`. */
  function SpelledOne(arg: string): Option<string> {
    if !(WHITELIST <= arg) then Some(arg)
    else
      var (flags, address) := RPartition(arg[|WHITELIST|..], '@');
      if (set p | p in Split(flags, ',')) - DIRECTIONS == {NOBAN} then Some("--whitelist=" + address) else None
  }

  /** `_spelled_for_btcd`: every entry in order, and an error exactly where one grants anything but `noban`. */
  method SpelledForBtcd(extraArgs: seq<string>) returns (r: Result<seq<string>>)
    ensures r.Ok? <==> forall i :: 0 <= i < |extraArgs| ==> SpelledOne(extraArgs[i]).Some?
    ensures r.Ok? ==>
      |r.value| == |extraArgs| && forall i :: 0 <= i < |extraArgs| ==> SpelledOne(extraArgs[i]) == Some(r.value[i])
    ensures r.Err? ==> r.error == ValueError
  {
    hide RPartition, Split, SpelledOne;
    var spelled: seq<string> := [];
    for i := 0 to |extraArgs|
      invariant |spelled| == i && forall k :: 0 <= k < i ==> SpelledOne(extraArgs[k]) == Some(spelled[k])
    {
      var one := SpelledOne(extraArgs[i]);
      if one.None? {
        return Err(ValueError);
      }
      spelled := spelled + [one.value];
    }
    return Ok(spelled);
  }

  lemma {:induction false} SplitPart(part: string, rest: string, separator: char)
    requires separator !in part
    ensures Split(part, separator) == [part]
    ensures Split(part + [separator] + rest, separator) == [part] + Split(rest, separator)
  {
    var s := part + [separator] + rest;
    if part == [] {
      assert s[1..] == rest;
    } else {
      assert s[1..] == part[1..] + [separator] + rest;
      assert part == [part[0]] + part[1..];
      SplitPart(part[1..], rest, separator);
    }
  }

  lemma {:induction false} SplitJoin(parts: seq<string>, separator: char)
    requires parts != [] && forall p :: p in parts ==> separator !in p
    ensures Split(Join(parts, separator), separator) == parts
  {
    if |parts| == 1 {
      SplitPart(parts[0], [], separator);
    } else {
      SplitJoin(parts[1..], separator);
      SplitPart(parts[0], Join(parts[1..], separator), separator);
    }
  }

  lemma {:induction false} PartitionAtLast(ahead: string, behind: string, separator: char)
    requires separator !in behind
    ensures RPartition(ahead + [separator] + behind, separator) == (ahead, behind)
    decreases behind
  {
    var s := ahead + [separator] + behind;
    if behind == [] {
      assert s[..|s| - 1] == ahead;
    } else {
      var front := behind[..|behind| - 1];
      assert s[..|s| - 1] == ahead + [separator] + front;
      assert s[..|s| - 1][|ahead|] == separator;
      assert behind == front + [s[|s| - 1]] && s[|s| - 1] in behind;
      PartitionAtLast(ahead, front, separator);
    }
  }

  /**
    A whitelist entry is taken to btcd's with the same address exactly where its permissions, directions aside, are
    `noban`.
   */
  lemma WhitelistSpelled(permissions: seq<string>, address: string)
    requires permissions != [] && (forall p :: p in permissions ==> ',' !in p) && '@' !in address
    ensures SpelledOne("-whitelist=" + (Join(permissions, ',') + ['@'] + address)) ==
      if (set p | p in permissions) - {"in", "out"} == {"noban"} then Some("--whitelist=" + address) else None
  {
    hide Split, RPartition, Join;
    var entry := Join(permissions, ',') + ['@'] + address;
    assert (WHITELIST + entry)[|WHITELIST|..] == entry;
    PartitionAtLast(Join(permissions, ','), address, '@');
    SplitJoin(permissions, ',');
  }
  lemma {:induction false} NoneAhead(s: string, separator: char)
    requires separator !in s
    ensures RPartition(s, separator) == ([], s)
  {
  }

  /** An entry that is no whitelist is kept as it is, and a whitelist with no permissions named is refused. */
  lemma OtherSpelled(arg: string)
    ensures !("-whitelist=" <= arg) ==> SpelledOne(arg) == Some(arg)
    ensures "-whitelist=" <= arg && '@' !in arg ==> SpelledOne(arg).None?
  {
    if "-whitelist=" <= arg && '@' !in arg {
      var rest := arg[|WHITELIST|..];
      NoneAhead(rest, '@');
      assert Split([], ',') == [[]];
      assert [] in (set p | p in Split([], ',')) - DIRECTIONS;
      assert [] != NOBAN;
    }
  }
}
