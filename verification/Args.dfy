/** Args: parsing, editing and printing the arguments of Mountpoint. */
module Args {
  import opened Strings

  const ARG_READ_ONLY := "--read-only"
  const ARG_ALLOW_OTHER := "--allow-other"
  const ARG_ALLOW_ROOT := "--allow-root"
  const ARG_MAX_CACHE_SIZE := "--max-cache-size"
  const ARG_GID := "--gid"
  const ARG_DIR_MODE := "--dir-mode"
  const ARG_FILE_MODE := "--file-mode"
  const ARG_FS_TAB := "-o"
  const ARG_CA_BUNDLE := "--ca-bundle"
  const ARG_NO_VALUE := ""

  /** Options that make no sense in a CSI driver. */
  const DISALLOWED: set<string> := {"--foreground", "-f", "--help", "-h", "--version", "-v"}

  datatype Arg = Arg(key: string, value: string) {
    function Print(): string {
      if value == ARG_NO_VALUE then key else key + ['='] + value
    }
  }

  /******* Text *******/

  function TrimLeft(s: string): string {
    if s != "" && s[0] == ' ' then TrimLeft(s[1..]) else s
  }

  function TrimRight(s: string): string {
    if s != "" && s[|s| - 1] == ' ' then TrimRight(s[..|s| - 1]) else s
  }

  function Trim(s: string): string { TrimRight(TrimLeft(s)) }

  predicate Trimmed(s: string) {
    s != "" ==> s[0] != ' ' && s[|s| - 1] != ' '
  }

  lemma {:induction false} TrimRightEnds(s: string)
    ensures TrimRight(s) != "" ==> TrimRight(s)[|TrimRight(s)| - 1] != ' ' && TrimRight(s)[0] == s[0]
  {
    if s != "" && s[|s| - 1] == ' ' { TrimRightEnds(s[..|s| - 1]); }
  }

  lemma {:induction false} TrimLeftEnds(s: string)
    ensures TrimLeft(s) != "" ==> TrimLeft(s)[0] != ' '
  {
    if s != "" && s[0] == ' ' { TrimLeftEnds(s[1..]); }
  }

  lemma TrimTrims(s: string)
    ensures Trimmed(Trim(s))
    ensures Trimmed(s) ==> Trim(s) == s
  {
    TrimLeftEnds(s);
    TrimRightEnds(TrimLeft(s));
  }

  /** `strings.Index` of a single character. */
  function Index(s: string, c: char): (i: int)
    ensures -1 <= i < |s|
    ensures i == -1 <==> c !in s
    ensures i >= 0 ==> s[i] == c && c !in s[..i]
  {
    if s == "" then -1
    else if s[0] == c then 0
    else
      var i := Index(s[1..], c);
      assert s == [s[0]] + s[1..];
      if i == -1 then -1 else
        assert s[..i + 1] == [s[0]] + s[1..][..i];
        i + 1
  }

  function NormalizeKey(key: string): string {
    if "-" <= key then key else "--" + key
  }

  /******* One argument *******/

  function SplitKeyValue(trimmed: string): (string, string) {
    var spacePos, equalsPos := Index(trimmed, ' '), Index(trimmed, '=');
    if spacePos != -1 && (equalsPos == -1 || spacePos < equalsPos) then
      (trimmed[..spacePos], Trim(trimmed[spacePos + 1..]))
    else if equalsPos != -1 then
      (trimmed[..equalsPos], Trim(trimmed[equalsPos + 1..]))
    else
      (trimmed, ARG_NO_VALUE)
  }

  /** None for an option that is disallowed. */
  function ParseArg(a: string): Option<Arg> {
    var (key, value) := SplitKeyValue(Trim(a));
    if NormalizeKey(key) in DISALLOWED then None else Some(Arg(NormalizeKey(key), value))
  }

  /** What every parsed argument looks like. */
  predicate WellParsed(a: Arg) {
    && "-" <= a.key && ' ' !in a.key && '=' !in a.key && a.key !in DISALLOWED
    && Trimmed(a.value)
  }

  lemma SplitIsClean(t: string)
    requires Trimmed(t)
    ensures var (key, value) := SplitKeyValue(t); ' ' !in key && '=' !in key && Trimmed(value)
  {
    var spacePos, equalsPos := Index(t, ' '), Index(t, '=');
    if spacePos != -1 && (equalsPos == -1 || spacePos < equalsPos) {
      TrimTrims(t[spacePos + 1..]);
      if equalsPos != -1 { PrefixLacks(t, '=', spacePos, equalsPos); }
    } else if equalsPos != -1 {
      TrimTrims(t[equalsPos + 1..]);
      if spacePos != -1 { PrefixLacks(t, ' ', equalsPos, spacePos); }
    }
  }

  lemma PrefixLacks(t: string, c: char, i: nat, j: nat)
    requires i <= j <= |t| && c !in t[..j]
    ensures c !in t[..i]
  {
    assert t[..i] == t[..j][..i];
  }

  lemma NormalizeKeepsClean(key: string, c: char)
    requires c !in key && c != '-'
    ensures c !in NormalizeKey(key) && "-" <= NormalizeKey(key)
  {
    assert "--" + key == ['-', '-'] + key;
  }

  lemma ParsedIsWellParsed(s: string)
    requires ParseArg(s).Some?
    ensures WellParsed(ParseArg(s).value)
  {
    TrimTrims(s);
    SplitIsClean(Trim(s));
    var (key, value) := SplitKeyValue(Trim(s));
    NormalizeKeepsClean(key, ' ');
    NormalizeKeepsClean(key, '=');
  }

  lemma PrintedIsTrimmed(a: Arg)
    requires WellParsed(a)
    ensures Trimmed(a.Print())
  {
    var s := a.Print();
    assert s[0] == a.key[0] == '-';
    assert a.key[|a.key| - 1] != ' ';
    if a.value != ARG_NO_VALUE { assert s[|s| - 1] == a.value[|a.value| - 1]; }
  }

  /** The equals sign that ends the key is the first separator. */
  lemma PrintedSplits(a: Arg)
    requires WellParsed(a) && a.value != ARG_NO_VALUE
    ensures SplitKeyValue(a.Print()) == (a.key, Trim(a.value))
  {
    var s := a.Print();
    assert s[|a.key|] == '=' && s[..|a.key|] == a.key && s[|a.key| + 1..] == a.value;
    FirstAt(s, '=', |a.key|);
    if ' ' in s { NotBefore(s, ' ', |a.key|); }
  }

  /** Printing and parsing a parsed argument gives it back, whatever spaces and equals signs its value has. */
  lemma ParsePrint(a: Arg)
    requires WellParsed(a)
    ensures ParseArg(a.Print()) == Some(a)
  {
    PrintedIsTrimmed(a);
    TrimTrims(a.Print());
    if a.value != ARG_NO_VALUE {
      PrintedSplits(a);
      TrimTrims(a.value);
    }
  }

  lemma FirstAt(s: string, c: char, i: nat)
    requires i < |s| && s[i] == c && c !in s[..i]
    ensures Index(s, c) == i
  {
  }

  lemma NotBefore(s: string, c: char, i: nat)
    requires c in s && i < |s| && c !in s[..i] && s[i] != c
    ensures Index(s, c) > i
  {
  }

  /******* What any text is parsed as *******/

  predicate OnlySpaces(s: string) {
    forall i | 0 <= i < |s| :: s[i] == ' '
  }

  /** `k` is the key with two dashes in front, unless it starts with one. */
  predicate IsOption(k: string, key: string) {
    if key != "" && key[0] == '-' then k == key else k == ['-', '-'] + key
  }

  /** One of the options that make no sense in a CSI driver. */
  predicate IsRefused(k: string) {
    k == "--foreground" || k == "-f" || k == "--help" || k == "-h" || k == "--version" || k == "-v"
  }

  lemma {:induction false} SpacesAreTrimmedLeft(left: string, s: string)
    requires OnlySpaces(left) && (s == "" || s[0] != ' ')
    ensures TrimLeft(left + s) == s
  {
    if left == "" {
      assert left + s == s;
    } else {
      assert (left + s)[1..] == left[1..] + s;
      SpacesAreTrimmedLeft(left[1..], s);
    }
  }

  lemma {:induction false} SpacesAreTrimmedRight(s: string, right: string)
    requires OnlySpaces(right) && (s == "" || s[|s| - 1] != ' ')
    ensures TrimRight(s + right) == s
  {
    if right == "" {
      assert s + right == s;
    } else {
      assert (s + right)[..|s + right| - 1] == s + right[..|right| - 1];
      SpacesAreTrimmedRight(s, right[..|right| - 1]);
    }
  }

  lemma SpacesAreTrimmed(left: string, s: string, right: string)
    requires OnlySpaces(left) && OnlySpaces(right) && Trimmed(s)
    ensures Trim(left + s + right) == s
  {
    if s == "" {
      assert left + s + right == left + right + "" && OnlySpaces(left + right);
      SpacesAreTrimmedLeft(left + right, "");
    } else {
      assert left + s + right == left + (s + right);
      SpacesAreTrimmedLeft(left, s + right);
      SpacesAreTrimmedRight(s, right);
    }
  }

  lemma SplitsAtFirst(key: string, sep: char, rest: string)
    requires ' ' !in key && '=' !in key && (sep == ' ' || sep == '=')
    ensures SplitKeyValue(key + [sep] + rest) == (key, Trim(rest))
  {
    var t := key + [sep] + rest;
    assert t[|key|] == sep && t[..|key|] == key && t[|key| + 1..] == rest;
    FirstAt(t, sep, |key|);
    var other := if sep == ' ' then '=' else ' ';
    if other in t { NotBefore(t, other, |key|); }
  }

  lemma NoSeparator(key: string)
    requires ' ' !in key && '=' !in key
    ensures SplitKeyValue(key) == (key, "")
  {}

  lemma NormalizedExactly(k: string, key: string)
    ensures k == NormalizeKey(key) <==> IsOption(k, key)
    ensures k in DISALLOWED <==> IsRefused(k)
  {}

  /** The parts of a text: a key without spaces and equals signs and, after one of these two, a value, with spaces
      around the text and in front of the value. */
  ghost predicate HasParts(a: string, key: string, value: string) {
    || (value == "" && exists left, right :: IsAlone(a, left, key, right))
    || exists left, sep, mid, right :: IsPair(a, left, key, sep, mid, value, right)
  }

  ghost predicate IsAlone(a: string, left: string, key: string, right: string) {
    OnlySpaces(left) && OnlySpaces(right) && a == left + key + right
  }

  ghost predicate IsPair(a: string, left: string, key: string, sep: char, mid: string, value: string, right: string) {
    && OnlySpaces(left) && OnlySpaces(mid) && OnlySpaces(right)
    && (sep == '=' || (sep == ' ' && key != "")) && a == left + (key + [sep] + (mid + value)) + right
  }

  /** Whatever text: the value is what follows the key, and the option is refused if it is one of the six. */
  lemma ParseArgExactly(a: string, key: string, value: string, k: string)
    requires HasParts(a, key, value) && ' ' !in key && '=' !in key && Trimmed(value) && IsOption(k, key)
    ensures ParseArg(a) == if IsRefused(k) then None else Some(Arg(k, value))
  {
    NormalizedExactly(k, key);
    if value == "" && exists left, right :: IsAlone(a, left, key, right) {
      var left, right :| IsAlone(a, left, key, right);
      SpacesAreTrimmed(left, key, right);
      NoSeparator(key);
    } else {
      var left, sep, mid, right :| IsPair(a, left, key, sep, mid, value, right);
      PartsSplit(left, key, sep, mid, value, right);
    }
  }

  lemma PartsSplit(left: string, key: string, sep: char, mid: string, value: string, right: string)
    requires OnlySpaces(left) && OnlySpaces(mid) && OnlySpaces(right) && ' ' !in key && '=' !in key && Trimmed(value)
    requires sep == '=' || (sep == ' ' && key != "")
    ensures SplitKeyValue(Trim(left + (key + [sep] + (mid + value)) + right)) == (key, value)
  {
    if value != "" {
      var text := key + [sep] + (mid + value);
      assert text[|text| - 1] == value[|value| - 1] && text[0] != ' ';
      SpacesAreTrimmed(left, text, right);
      SplitsAtFirst(key, sep, mid + value);
      SpacesAreTrimmed(mid, value, "");
      assert mid + value + "" == mid + value;
    } else if sep == '=' {
      var text := key + [sep];
      assert text[|text| - 1] == '=' && text[0] != ' ';
      assert left + (key + [sep] + (mid + value)) + right == left + text + (mid + right);
      SpacesAreTrimmed(left, text, mid + right);
      SplitsAtFirst(key, sep, "");
      assert text + "" == text;
    } else {
      assert left + (key + [sep] + (mid + value)) + right == left + key + ([sep] + mid + right);
      SpacesAreTrimmed(left, key, [sep] + mid + right);
      NoSeparator(key);
    }
  }

  lemma {:induction false} LeftSpaces(s: string) returns (left: string)
    ensures OnlySpaces(left) && s == left + TrimLeft(s)
  {
    left := "";
    if s != "" && s[0] == ' ' {
      left := LeftSpaces(s[1..]);
      left := " " + left;
    }
  }

  lemma {:induction false} RightSpaces(s: string) returns (right: string)
    ensures OnlySpaces(right) && s == TrimRight(s) + right
  {
    right := "";
    if s != "" && s[|s| - 1] == ' ' {
      right := RightSpaces(s[..|s| - 1]);
      right := right + " ";
    }
  }

  lemma SpacesAtTheEnd(s: string, end: string)
    requires OnlySpaces(end)
    ensures end == "" || !Trimmed(s + end)
  {
    assert end != "" ==> (s + end)[|s| + |end| - 1] == ' ';
  }

  /** The end of a trimmed text has spaces in front only. */
  lemma OnlyInFront(t: string, n: nat) returns (mid: string)
    requires Trimmed(t) && n <= |t|
    ensures OnlySpaces(mid) && t[n..] == mid + Trim(t[n..])
  {
    mid := LeftSpaces(t[n..]);
    var rest := TrimLeft(t[n..]);
    var end := RightSpaces(rest);
    assert t == t[..n] + mid + TrimRight(rest) + end;
    SpacesAtTheEnd(t[..n] + mid + TrimRight(rest), end);
    assert TrimRight(rest) + end == TrimRight(rest);
  }

  lemma Surroundings(a: string) returns (left: string, right: string)
    ensures OnlySpaces(left) && OnlySpaces(right) && a == left + Trim(a) + right
  {
    left := LeftSpaces(a);
    right := RightSpaces(TrimLeft(a));
    assert left + (Trim(a) + right) == left + Trim(a) + right;
  }

  lemma KeyThenSeparator(t: string)
    requires Trimmed(t)
    ensures var (key, value) := SplitKeyValue(t);
      && key <= t && (key == t ==> value == "")
      && (key != t ==> value == Trim(t[|key| + 1..]) && (t[|key|] == '=' || (t[|key|] == ' ' && key != "")))
  {}

  /** And every text has such parts. */
  lemma EveryTextHasParts(a: string) returns (key: string, value: string)
    ensures HasParts(a, key, value) && ' ' !in key && '=' !in key && Trimmed(value)
  {
    var left, right := Surroundings(a);
    var t := Trim(a);
    TrimTrims(a);
    SplitIsClean(t);
    KeyThenSeparator(t);
    key, value := SplitKeyValue(t).0, SplitKeyValue(t).1;
    if t == key {
      AloneHasParts(a, left, key, right);
    } else {
      var mid := OnlyInFront(t, |key| + 1);
      PairAround(a, left, t, right, key, mid, value);
    }
  }

  lemma AloneHasParts(a: string, left: string, key: string, right: string)
    requires IsAlone(a, left, key, right)
    ensures HasParts(a, key, "")
  {}

  lemma PairAround(a: string, left: string, t: string, right: string, key: string, mid: string, value: string)
    requires OnlySpaces(left) && OnlySpaces(mid) && OnlySpaces(right) && a == left + t + right
    requires key < t && (t[|key|] == '=' || (t[|key|] == ' ' && key != "")) && t[|key| + 1..] == mid + value
    ensures HasParts(a, key, value)
  {
    assert t == key + [t[|key|]] + t[|key| + 1..];
    assert IsPair(a, left, key, t[|key|], mid, value, right);
  }

  /******* Argument sets *******/

  /** The arguments of a list, as a set of pairs. */
  function ParseSet(passed: seq<string>): set<Arg> {
    set s | s in passed && ParseArg(s).Some? :: ParseArg(s).value
  }

  lemma ParseMore(passed: seq<string>, i: nat)
    requires i < |passed|
    ensures var parsed := ParseArg(passed[i]);
      ParseSet(passed[..i + 1]) ==
        if parsed.Some? then ParseSet(passed[..i]) + {parsed.value} else ParseSet(passed[..i])
  {
    assert passed[..i + 1] == passed[..i] + [passed[i]];
  }

  function Prints(args: set<Arg>): set<string> {
    set a | a in args :: a.Print()
  }

  /** Printing parsed arguments and parsing them again changes nothing. */
  lemma PrintedArgsParseBack(args: set<Arg>, list: seq<string>)
    requires (forall a | a in args :: WellParsed(a)) && Elements(list) == Prints(args)
    ensures ParseSet(list) == args
  {
    forall a | a in args ensures a in ParseSet(list) {
      ParsePrint(a);
      assert a.Print() in Elements(list);
    }
    forall b | b in ParseSet(list) ensures b in args {
      var s :| s in list && ParseArg(s).Some? && ParseArg(s).value == b;
      assert s in Elements(list);
      var a :| a in args && a.Print() == s;
      ParsePrint(a);
    }
  }

  lemma ParseSetIsWellParsed(passed: seq<string>)
    ensures forall a | a in ParseSet(passed) :: WellParsed(a)
  {
    forall s | s in passed && ParseArg(s).Some? ensures WellParsed(ParseArg(s).value) { ParsedIsWellParsed(s); }
  }

  /** The round trip, for every input list. */
  lemma RoundTrip(passed: seq<string>, list: seq<string>)
    requires Elements(list) == Prints(ParseSet(passed))
    ensures ParseSet(list) == ParseSet(passed)
  {
    ParseSetIsWellParsed(passed);
    PrintedArgsParseBack(ParseSet(passed), list);
  }

  /** Printing tells parsed arguments apart. */
  lemma PrintingIsInjective(passed: seq<string>, passed': seq<string>)
    ensures Sorted(Prints(ParseSet(passed))) == Sorted(Prints(ParseSet(passed')))
      <==> ParseSet(passed) == ParseSet(passed')
  {
    var list := Sorted(Prints(ParseSet(passed)));
    RoundTrip(passed, list);
    if list == Sorted(Prints(ParseSet(passed'))) { RoundTrip(passed', list); }
  }

  /******* A set that is used as a map *******/

  ghost predicate DistinctKeys(args: set<Arg>) {
    forall a, b | a in args && b in args && a.key == b.key :: a == b
  }

  function Keys(args: set<Arg>): set<string> {
    set a | a in args :: a.key
  }

  /** The map that a set of arguments with distinct keys stands for. */
  ghost function ToMap(args: set<Arg>): map<string, string>
    requires DistinctKeys(args)
  {
    map k | k in Keys(args) :: ValueIn(args, k)
  }

  ghost function ValueIn(args: set<Arg>, key: string): string
    requires key in Keys(args)
  {
    var a :| a in args && a.key == key; a.value
  }

  lemma MapHas(args: set<Arg>, a: Arg)
    requires DistinctKeys(args)
    ensures a in args <==> a.key in ToMap(args) && ToMap(args)[a.key] == a.value
  {
    if a.key in Keys(args) {
      var b :| b in args && b.key == a.key && ValueIn(args, a.key) == b.value;
      assert a in args ==> a == b;
    }
  }

  /** Two maps are equal if the sets are, seen through `MapHas`. */
  lemma MapIs(args: set<Arg>, m: map<string, string>)
    requires forall k, v :: Arg(k, v) in args <==> k in m && m[k] == v
    ensures DistinctKeys(args) && ToMap(args) == m
  {
    forall a, b | a in args && b in args && a.key == b.key ensures a == b {
      assert Arg(a.key, a.value) in args && Arg(b.key, b.value) in args;
    }
    forall k | k in m ensures k in ToMap(args) && ToMap(args)[k] == m[k] {
      assert Arg(k, m[k]) in args;
      MapHas(args, Arg(k, m[k]));
    }
    forall k | k in ToMap(args) ensures k in m {
      var a :| a in args && a.key == k;
      assert Arg(a.key, a.value) in args;
    }
  }

  lemma RemovalInMap(args: set<Arg>, a: Arg)
    requires DistinctKeys(args) && a in args
    ensures DistinctKeys(args - {a}) && ToMap(args - {a}) == ToMap(args) - {a.key}
  {
    forall k, v ensures Arg(k, v) in args - {a} <==> k in ToMap(args) - {a.key} && (ToMap(args) - {a.key})[k] == v {
      MapHas(args, Arg(k, v));
    }
    MapIs(args - {a}, ToMap(args) - {a.key});
  }

  lemma InsertionInMap(args: set<Arg>, a: Arg)
    requires DistinctKeys(args) && a.key !in Keys(args)
    ensures DistinctKeys(args + {a}) && ToMap(args + {a}) == ToMap(args)[a.key := a.value]
  {
    var m := ToMap(args)[a.key := a.value];
    forall k, v ensures Arg(k, v) in args + {a} <==> k in m && m[k] == v {
      MapHas(args, Arg(k, v));
    }
    MapIs(args + {a}, m);
  }

  function PutIfAbsent(m: map<string, string>, key: string, value: string): map<string, string> {
    if key in m then m else m[key := value]
  }

  /** The arguments with a given key. */
  function WithKey(args: set<Arg>, key: string): set<Arg> {
    set a | a in args && a.key == key
  }

  /** What Set leaves, when Remove happens to find `victim`. */
  function AfterSet(args: set<Arg>, key: string, value: string, victim: Option<Arg>): set<Arg> {
    (if victim.Some? then args - {victim.value} else args) + {Arg(key, value)}
  }

  ghost predicate Findable(args: set<Arg>, key: string, found: Option<Arg>) {
    if found.Some? then found.value in WithKey(args, key) else WithKey(args, key) == {}
  }

  /** Whatever the iteration order, Set leaves one value of the key iff there was at most one before. */
  lemma SetReplacesExactlyWhenUnique(args: set<Arg>, key: string, value: string)
    ensures
      (forall found | Findable(args, key, found) ::
         WithKey(AfterSet(args, key, value, found), key) == {Arg(key, value)})
      <==> |WithKey(args, key)| <= 1
  {
    if |WithKey(args, key)| <= 1 {
      forall found | Findable(args, key, found)
        ensures WithKey(AfterSet(args, key, value, found), key) == {Arg(key, value)}
      {
        SetReplacesOne(args, key, value, found);
      }
    } else {
      var found := SetKeepsAnother(args, key, value);
    }
  }

  lemma SetReplacesOne(args: set<Arg>, key: string, value: string, found: Option<Arg>)
    requires |WithKey(args, key)| <= 1 && Findable(args, key, found)
    ensures WithKey(AfterSet(args, key, value, found), key) == {Arg(key, value)}
  {
    var them := WithKey(args, key);
    if found.Some? {
      assert |them - {found.value}| == 0;
      assert them == {found.value};
    }
  }

  lemma SetKeepsAnother(args: set<Arg>, key: string, value: string) returns (found: Option<Arg>)
    requires |WithKey(args, key)| > 1
    ensures Findable(args, key, found) && WithKey(AfterSet(args, key, value, found), key) != {Arg(key, value)}
  {
    var them := WithKey(args, key);
    var a :| a in them;
    assert |them - {a}| >= 1;
    var b :| b in them - {a};
    var kept := if a == Arg(key, value) then b else a;
    var victim := if a == Arg(key, value) then a else b;
    found := Some(victim);
    assert kept in WithKey(AfterSet(args, key, value, found), key) && kept != Arg(key, value);
  }

  lemma MapAfterSet(args: set<Arg>, key: string, value: string, found: Option<Arg>)
    requires DistinctKeys(args) && Findable(args, key, found)
    ensures DistinctKeys(AfterSet(args, key, value, found))
    ensures ToMap(AfterSet(args, key, value, found)) == ToMap(args)[key := value]
  {
    var without := if found.Some? then args - {found.value} else args;
    AbsentAfterRemoval(args, without, key, found);
    InsertionInMap(without, Arg(key, value));
    if found.Some? { RemovalInMap(args, found.value); }
    assert ToMap(without)[key := value] == ToMap(args)[key := value];
  }

  /******* The class *******/

  class Args {
    var args: set<Arg>

    /** `ParseArgs`. */
    constructor Parse(passedArgs: seq<string>)
      ensures args == ParseSet(passedArgs)
    {
      args := {};
      new;
      for i := 0 to |passedArgs|
        invariant args == ParseSet(passedArgs[..i])
      {
        var parsed := ParseArg(passedArgs[i]);
        ParseMore(passedArgs, i);
        if parsed.Some? {
          args := args + {parsed.value};
        }
      }
      assert passedArgs[..|passedArgs|] == passedArgs;
    }

    /** The first argument with that key, in whatever order the set is iterated. */
    method Find(key: string) returns (found: Option<Arg>)
      ensures Findable(args, NormalizeKey(key), found)
    {
      var todo := args;
      while todo != {}
        invariant todo <= args
        invariant forall a | a in args - todo :: a.key != NormalizeKey(key)
        decreases todo
      {
        var a :| a in todo;
        if a.key == NormalizeKey(key) { return Some(a); }
        todo := todo - {a};
      }
      found := None;
    }

    method Has(key: string) returns (has: bool)
      ensures has <==> NormalizeKey(key) in Keys(args)
    {
      var found := Find(key);
      has := found.Some?;
      if has {
        assert found.value in args;
      } else {
        assert forall a | a in args :: a.key == NormalizeKey(key) ==> a in WithKey(args, NormalizeKey(key));
      }
    }

    method Value(key: string) returns (value: Option<string>)
      ensures value.Some? <==> NormalizeKey(key) in Keys(args)
      ensures value.Some? ==> Arg(NormalizeKey(key), value.value) in args
      ensures DistinctKeys(args) && value.Some? ==> value.value == ToMap(args)[NormalizeKey(key)]
    {
      var found := Find(key);
      value := if found.Some? then Some(found.value.value) else None;
      if found.Some? {
        assert found.value in args;
        if DistinctKeys(args) { MapHas(args, found.value); }
      } else {
        assert forall a | a in args :: a.key == NormalizeKey(key) ==> a in WithKey(args, NormalizeKey(key));
      }
    }

    method Remove(key: string) returns (found: Option<Arg>)
      modifies this
      ensures Findable(old(args), NormalizeKey(key), found)
      ensures args == if found.Some? then old(args) - {found.value} else old(args)
      ensures DistinctKeys(old(args)) ==> DistinctKeys(args) && ToMap(args) == ToMap(old(args)) - {NormalizeKey(key)}
    {
      found := Find(key);
      if found.Some? {
        args := args - {found.value};
        if DistinctKeys(old(args)) { RemovalInMap(old(args), found.value); }
      } else if DistinctKeys(args) {
        AbsentKey(args, NormalizeKey(key));
        assert ToMap(args) - {NormalizeKey(key)} == ToMap(args);
      }
    }

    method Set(key: string, value: string)
      modifies this
      ensures exists found :: (Findable(old(args), NormalizeKey(key), found)
                               && args == AfterSet(old(args), NormalizeKey(key), value, found))
      ensures DistinctKeys(old(args)) ==>
        DistinctKeys(args) && ToMap(args) == ToMap(old(args))[NormalizeKey(key) := value]
    {
      var key' := NormalizeKey(key);
      var found := Remove(key');
      args := args + {Arg(key', value)};
      assert args == AfterSet(old(args), key', value, found);
      if DistinctKeys(old(args)) { MapAfterSet(old(args), key', value, found); }
    }

    method SetIfAbsent(key: string, value: string)
      modifies this
      ensures NormalizeKey(key) in Keys(old(args)) ==> args == old(args)
      ensures NormalizeKey(key) !in Keys(old(args)) ==> args == old(args) + {Arg(NormalizeKey(key), value)}
      ensures DistinctKeys(old(args)) ==> DistinctKeys(args)
      ensures DistinctKeys(old(args)) ==>
        ToMap(args) == PutIfAbsent(ToMap(old(args)), NormalizeKey(key), value)
    {
      var has := Has(key);
      if !has {
        Set(key, value);
        ghost var found :| Findable(old(args), NormalizeKey(key), found)
          && args == AfterSet(old(args), NormalizeKey(key), value, found);
      }
    }

    /** One printed line per argument, sorted. */
    method SortedList() returns (list: seq<string>)
      ensures Nondecreasing(list) && |list| == |args| && Elements(list) == Prints(args)
      ensures (forall a | a in args :: WellParsed(a)) ==> list == Sorted(Prints(args))
    {
      list := [];
      var todo := args;
      while todo != {}
        invariant todo <= args && |list| == |args| - |todo|
        invariant Elements(list) == Prints(args - todo)
        invariant (forall a | a in args :: WellParsed(a)) ==> NoDuplicates(list)
        decreases todo
      {
        var a :| a in todo;
        PrintsMore(args, todo, a, list);
        if forall b | b in args :: WellParsed(b) { NewPrint(args - todo, a, list); }
        list, todo := list + [a.Print()], todo - {a};
      }
      assert args - {} == args;
      ghost var unsorted := list;
      list := SortStrings(list);
      SameElements(list, unsorted);
    }
  }

  lemma SameElements(xs: seq<string>, ys: seq<string>)
    requires multiset(xs) == multiset(ys)
    ensures Elements(xs) == Elements(ys) && |xs| == |ys|
  {
    assert forall x :: x in xs <==> x in multiset(xs);
    assert forall x :: x in ys <==> x in multiset(ys);
    assert |xs| == |multiset(xs)| == |multiset(ys)| == |ys|;
  }

  lemma PrintsMore(args: set<Arg>, todo: set<Arg>, a: Arg, list: seq<string>)
    requires a in todo && todo <= args && Elements(list) == Prints(args - todo)
    ensures Elements(list + [a.Print()]) == Prints(args - (todo - {a}))
  {
    assert args - (todo - {a}) == (args - todo) + {a};
    assert Elements(list + [a.Print()]) == Elements(list) + {a.Print()};
  }

  lemma AbsentKey(args: set<Arg>, key: string)
    requires WithKey(args, key) == {}
    ensures key !in Keys(args)
  {
    assert forall a | a in args :: a.key == key ==> a in WithKey(args, key);
  }

  lemma AbsentAfterRemoval(args: set<Arg>, without: set<Arg>, key: string, found: Option<Arg>)
    requires DistinctKeys(args) && Findable(args, key, found)
    requires without == if found.Some? then args - {found.value} else args
    ensures key !in Keys(without)
  {
    if found.None? { AbsentKey(args, key); }
  }

  /** A well-parsed argument prints like no other. */
  lemma NewPrint(printed: set<Arg>, a: Arg, list: seq<string>)
    requires Elements(list) == Prints(printed) && a !in printed
    requires WellParsed(a) && forall b | b in printed :: WellParsed(b)
    ensures a.Print() !in list
  {
    if a.Print() in list {
      assert a.Print() in Elements(list);
      var b :| b in printed && b.Print() == a.Print();
      ParsePrint(a);
      ParsePrint(b);
    }
  }
}
