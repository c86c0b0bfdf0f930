/**
  The guard on a caller's extra arguments, against what bitcoind makes of an argv: one or two dashes open an
  option, `no` ahead of a name negates it, the last of a repeated option wins, and five names select the chain.
 */
module ArgvGuard {
  import opened Wrappers

  const CHAIN_SELECTORS: set<string> := {"chain", "regtest", "testnet", "testnet4", "signet"}

  // The guard.

  function WithoutDashes(token: string): string {
    if token != [] && token[0] == '-' then WithoutDashes(token[1..]) else token
  }

  /** What stands ahead of the first `=`. */
  function BeforeEquals(s: string): string {
    if s == [] || s[0] == '=' then [] else [s[0]] + BeforeEquals(s[1..])
  }

  function OptionName(token: string): Option<string> {
    if token == [] || token[0] != '-' then None
    else
      var name := BeforeEquals(WithoutDashes(token));
      if name == [] then None else Some(name)
  }

  function CanonicalName(name: string): string {
    if "no" <= name && |name| > 2 then name[2..] else name
  }

  function Names(command: seq<string>): set<string> {
    set i | 0 <= i < |command| && OptionName(command[i]).Some? :: CanonicalName(OptionName(command[i]).value)
  }

  function ReservedNames(command: seq<string>): set<string> {
    if Names(command) * CHAIN_SELECTORS != {} then Names(command) + CHAIN_SELECTORS else Names(command)
  }

  predicate Refused(command: seq<string>, arg: string) {
    OptionName(arg).Some? && CanonicalName(OptionName(arg).value) in ReservedNames(command)
  }

  predicate Accepts(command: seq<string>, extraArgs: seq<string>) {
    forall i :: 0 <= i < |extraArgs| ==> !Refused(command, extraArgs[i])
  }

  /** `_check_extra_args`, one argument after another. */
  method CheckExtraArgs(command: seq<string>, extraArgs: seq<string>) returns (error: Option<Error>)
    ensures error == if Accepts(command, extraArgs) then None else Some(ValueError)
  {
    var reserved := ReservedNames(command);
    for i := 0 to |extraArgs|
      invariant Accepts(command, extraArgs[..i])
    {
      assert extraArgs[..i + 1] == extraArgs[..i] + [extraArgs[i]];
      var name := OptionName(extraArgs[i]);
      if name.None? {
        continue;
      }
      if CanonicalName(name.value) in reserved {
        assert Refused(command, extraArgs[i]);
        return Some(ValueError);
      }
    }
    assert extraArgs[..|extraArgs|] == extraArgs;
    return None;
  }

  // What bitcoind reads.

  /** A setting named on the command line: its key, and how it was spelled. */
  datatype Setting = Setting(key: string, spelled: string)

  /** One dash or two are taken off an option, and no more. */
  function Body(token: string): Option<string> {
    if token == [] || token[0] != '-' then None
    else if |token| > 1 && token[1] == '-' then Some(token[2..])
    else Some(token[1..])
  }

  /** `-noopt` is a value of `opt`, and the five selectors are values of one setting. */
  function KeyOf(name: string): string {
    var own := if |name| > 2 && name[0] == 'n' && name[1] == 'o' then name[2..] else name;
    if own in {"chain", "regtest", "testnet", "testnet4", "signet"} then "chain" else own
  }

  /** The name the guard compares is the key bitcoind reads, but for the chain's spellings. */
  lemma KeyIsCanonical(name: string)
    ensures KeyOf(name) == if CanonicalName(name) in CHAIN_SELECTORS then "chain" else CanonicalName(name)
  {
  }

  function Read(token: string): Option<Setting> {
    match Body(token)
    case None => None
    case Some(body) =>
      var name := BeforeEquals(body);
      if name == [] then None else Some(Setting(KeyOf(name), body))
  }

  /** Every spelling of a setting on a command line, in order. */
  function Occurrences(argv: seq<string>, key: string): seq<Setting> {
    if argv == [] then []
    else
      var last := Read(argv[|argv| - 1]);
      Occurrences(argv[..|argv| - 1], key) + if last.Some? && last.value.key == key then [last.value] else []
  }

  /** Last one wins. */
  function Value(argv: seq<string>, key: string): Option<Setting> {
    var all := Occurrences(argv, key);
    if all == [] then None else Some(all[|all| - 1])
  }

  predicate Sets(token: string, key: string) {
    Read(token).Some? && Read(token).value.key == key
  }

  predicate CommandSets(command: seq<string>, key: string) {
    exists i :: 0 <= i < |command| && Sets(command[i], key)
  }

  /** The adapter spells its own options with one dash or two, and no name that begins with one. */
  predicate WellSpelled(command: seq<string>) {
    forall i :: 0 <= i < |command| && Body(command[i]).Some? ==> PlainBody(Body(command[i]).value)
  }

  predicate Dashed(s: string) {
    s != [] && s[0] == '-'
  }

  predicate PlainBody(body: string) {
    !Dashed(body) && !(|body| > 2 && body[0] == 'n' && body[1] == 'o' && body[2] == '-')
  }

  // The guard against the reading.

  lemma {:induction false} NoDashes(s: string)
    ensures !Dashed(WithoutDashes(s))
    ensures !Dashed(s) ==> WithoutDashes(s) == s
  {
    if s != [] && s[0] == '-' {
      NoDashes(s[1..]);
    }
  }

  /** A body with no dash of its own is named alike by both. */
  lemma SameName(token: string)
    requires Body(token).Some? && !Dashed(Body(token).value)
    ensures OptionName(token)
         == (if BeforeEquals(Body(token).value) == [] then None else Some(BeforeEquals(Body(token).value)))
  {
    var body := Body(token).value;
    NoDashes(body);
    if |token| > 1 && token[1] == '-' {
      assert token[1..][1..] == body;
    }
    assert WithoutDashes(token) == body;
  }

  /** A name bitcoind reads past a third dash is no plain key. */
  lemma DashedKey(body: string)
    requires Dashed(body)
    ensures Dashed(CanonicalName(BeforeEquals(body)))
  {
    assert BeforeEquals(body)[0] == '-';
  }

  lemma PlainKey(body: string)
    requires PlainBody(body)
    ensures !Dashed(CanonicalName(BeforeEquals(body)))
  {
    var name := BeforeEquals(body);
    NameBegins(body);
  }

  /** A name is all there is ahead of the first `=`. */
  lemma {:induction false} NameBegins(body: string)
    ensures BeforeEquals(body) <= body && '=' !in BeforeEquals(body)
    ensures BeforeEquals(body) == body || body[|BeforeEquals(body)|] == '='
  {
    if body != [] && body[0] != '=' {
      NameBegins(body[1..]);
    }
  }

  lemma SelectorsArePlain(name: string)
    requires name in CHAIN_SELECTORS
    ensures !Dashed(name)
  {
    assert "chain"[0] != '-' && "regtest"[0] != '-' && "testnet"[0] != '-';
    assert "testnet4"[0] != '-' && "signet"[0] != '-';
  }

  /** An option the command sets under a key is among its names, or the chain selectors are reserved. */
  lemma SetByCommand(command: seq<string>, i: nat, name: string)
    requires WellSpelled(command) && i < |command| && Read(command[i]).Some?
    requires Read(command[i]).value.key == KeyOf(name)
    requires !Dashed(CanonicalName(name))
    ensures CanonicalName(name) in ReservedNames(command)
  {
    var body := Body(command[i]).value;
    SameName(command[i]);
    var own := CanonicalName(BeforeEquals(body));
    assert own in Names(command);
    if own in CHAIN_SELECTORS {
      assert own in Names(command) * CHAIN_SELECTORS;
    }
  }

  /** An accepted argument sets nothing the command sets. */
  lemma AcceptedSetsNothing(command: seq<string>, arg: string, key: string)
    requires WellSpelled(command) && CommandSets(command, key) && !Refused(command, arg)
    ensures !Sets(arg, key)
  {
    if Sets(arg, key) {
      var i :| 0 <= i < |command| && Sets(command[i], key);
      var body := Body(arg).value;
      var name := BeforeEquals(body);
      PlainKey(Body(command[i]).value);
      if Dashed(body) {
        DashedKey(body);
        KeyNotDashed(Body(command[i]).value, name);
        assert false;
      }
      SameName(arg);
      if Dashed(CanonicalName(name)) {
        KeyNotDashed(Body(command[i]).value, name);
        assert false;
      }
      SetByCommand(command, i, name);
      assert false;
    }
  }

  /** A plain key is never one that begins with a dash. */
  lemma KeyNotDashed(body: string, name: string)
    requires PlainBody(body) && Dashed(CanonicalName(name))
    ensures KeyOf(BeforeEquals(body)) != KeyOf(name)
  {
    PlainKey(body);
    if CanonicalName(name) in CHAIN_SELECTORS {
      SelectorsArePlain(CanonicalName(name));
    }
  }

  lemma {:induction false} NothingMore(command: seq<string>, extraArgs: seq<string>, key: string)
    requires forall i :: 0 <= i < |extraArgs| ==> !Sets(extraArgs[i], key)
    ensures Occurrences(command + extraArgs, key) == Occurrences(command, key)
    decreases extraArgs
  {
    if extraArgs == [] {
      assert command + extraArgs == command;
    } else {
      var front := extraArgs[..|extraArgs| - 1];
      assert (command + extraArgs)[..|command + extraArgs| - 1] == command + front;
      NothingMore(command, front, key);
    }
  }

  /**
    The guard preserves the command's meaning: appended after it, accepted arguments leave every setting of the
    command as the command alone has it, its negations and its chain included.
   */
  lemma GuardPreserves(command: seq<string>, extraArgs: seq<string>, key: string)
    requires WellSpelled(command) && Accepts(command, extraArgs) && CommandSets(command, key)
    ensures Occurrences(command + extraArgs, key) == Occurrences(command, key)
    ensures Value(command + extraArgs, key) == Value(command, key)
  {
    hide Read, Refused, WellSpelled, CommandSets;
    forall i | 0 <= i < |extraArgs| ensures !Sets(extraArgs[i], key) {
      AcceptedSetsNothing(command, extraArgs[i], key);
    }
    NothingMore(command, extraArgs, key);
  }

  /** An argument spelled plainly is named alike by the guard and by bitcoind. */
  lemma PlainName(arg: string)
    requires Body(arg).Some? && PlainBody(Body(arg).value) && OptionName(arg).Some?
    ensures Read(arg).Some? && Read(arg).value.key == KeyOf(OptionName(arg).value)
  {
    SameName(arg);
  }

  lemma NamedInCommand(command: seq<string>, own: string) returns (i: nat)
    requires own in Names(command)
    ensures i < |command| && OptionName(command[i]).Some? && CanonicalName(OptionName(command[i]).value) == own
  {
    i :| 0 <= i < |command| && OptionName(command[i]).Some? && CanonicalName(OptionName(command[i]).value) == own;
  }

  lemma NamedHasBody(token: string)
    requires OptionName(token).Some?
    ensures Body(token).Some?
  {
  }

  /** Spelled plainly, an argument is refused only where it would set what the command sets. */
  lemma RefusedSets(command: seq<string>, arg: string)
    requires WellSpelled(command) && Body(arg).Some? && PlainBody(Body(arg).value) && Refused(command, arg)
    ensures Read(arg).Some? && CommandSets(command, Read(arg).value.key)
  {
    hide OptionName, Read, Body, PlainBody, CanonicalName;
    PlainName(arg);
    var name := CanonicalName(OptionName(arg).value);
    var own := name;
    if name !in Names(command) {
      own :| own in Names(command) * CHAIN_SELECTORS;
    }
    var i := NamedInCommand(command, own);
    NamedHasBody(command[i]);
    PlainName(command[i]);
    KeyIsCanonical(OptionName(arg).value);
    KeyIsCanonical(OptionName(command[i]).value);
    assert Sets(command[i], Read(arg).value.key);
  }

  /** Spelled plainly, arguments are accepted exactly where none of them sets what the command sets. */
  lemma AcceptsIff(command: seq<string>, extraArgs: seq<string>)
    requires WellSpelled(command) && WellSpelled(extraArgs)
    ensures Accepts(command, extraArgs) <==>
      forall i, key | 0 <= i < |extraArgs| && Sets(extraArgs[i], key) :: !CommandSets(command, key)
  {
    hide Refused, CommandSets, Sets, Body, PlainBody;
    forall i | 0 <= i < |extraArgs|
      ensures Refused(command, extraArgs[i]) ==> exists key :: Sets(extraArgs[i], key) && CommandSets(command, key)
      ensures (exists key :: Sets(extraArgs[i], key) && CommandSets(command, key)) ==> Refused(command, extraArgs[i])
    {
      if Refused(command, extraArgs[i]) {
        RefusedReads(command, extraArgs[i]);
      } else {
        forall key | CommandSets(command, key) ensures !Sets(extraArgs[i], key) {
          AcceptedSetsNothing(command, extraArgs[i], key);
        }
      }
    }
  }

  lemma RefusedReads(command: seq<string>, arg: string)
    requires WellSpelled(command) && (Body(arg).Some? ==> PlainBody(Body(arg).value)) && Refused(command, arg)
    ensures exists key :: Sets(arg, key) && CommandSets(command, key)
  {
    hide CommandSets, PlainBody, WellSpelled, ReservedNames;
    NamedHasBody(arg);
    RefusedSets(command, arg);
    assert Sets(arg, Read(arg).value.key);
  }
}
