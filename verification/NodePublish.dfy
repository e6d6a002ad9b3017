/** NodePublish: the Mountpoint arguments of a NodePublishVolume request (CSI Specification v1.9.0). */
module NodePublish {
  import opened Strings
  import opened Decimal
  import opened Args

  const MIB := 1024 * 1024
  const CACHE_TYPE_EMPTY_DIR := "emptyDir"
  const STORAGE_MEDIUM_DEFAULT := ""
  const FILE_PERM_770 := "770"
  const FILE_PERM_660 := "660"

  /** `quantity` is what `resource.ParseQuantity` makes of the limit, rounded to bytes.
      `mount` is None for a capability without mount access. */
  datatype Request = Request(readonly: bool, readerOnlyMany: bool, mount: Option<MountCapability>,
                             cache: string, sizeLimit: string, medium: string, quantity: Option<int>)

  datatype MountCapability = MountCapability(flags: seq<string>, volumeMountGroup: string)

  datatype Failure = FsTabFlag | CaBundleFlag | BadSizeLimit | BadCacheSize | CacheSizeTooLarge

  /** Go's integer division truncates toward zero. */
  function TruncDiv(a: int, b: int): int
    requires b > 0
  {
    if a >= 0 then a / b else -((-a) / b)
  }

  function LimitMiB(quantity: int): int { TruncDiv(quantity, MIB) }

  /** 95% of the limit, in exact arithmetic. */
  function SafeMiB(quantity: int): int { TruncDiv(quantity * 95, 100 * MIB) }

  function PassedArgs(req: Request): seq<string> {
    (if req.readonly || req.readerOnlyMany then [ARG_READ_ONLY] else []) +
    (if req.mount.Some? then req.mount.value.flags else [])
  }

  predicate HasSizeLimit(req: Request) {
    req.sizeLimit != "" && req.cache == CACHE_TYPE_EMPTY_DIR
  }

  predicate DiskBacked(req: Request) {
    HasSizeLimit(req) && req.medium == STORAGE_MEDIUM_DEFAULT
  }

  lemma SafeIsWithinLimit(quantity: int)
    requires quantity >= 0
    ensures 0 <= SafeMiB(quantity) <= LimitMiB(quantity)
    ensures SafeMiB(quantity) * (100 * MIB) <= quantity * 95
  {}

  /** What truncation toward zero does to 95% of a negative limit. */
  lemma SafeOfNegative(quantity: int)
    requires quantity < 0
    ensures SafeMiB(quantity) * (100 * MIB) <= quantity * 95 <==> (quantity * 95) % (100 * MIB) == 0
    ensures (SafeMiB(quantity) - 1) * (100 * MIB) < quantity * 95 <= SafeMiB(quantity) * (100 * MIB)
    ensures quantity <= SafeMiB(quantity) <= 0
  {}

  /** The safe size itself keeps within 95% of the limit, exactly if truncation does not raise it. */
  predicate SafeMeetsCap(quantity: int) {
    quantity >= 0 || (quantity * 95) % (100 * MIB) == 0
  }

  lemma SafeMeetsCapExactly(quantity: int)
    ensures WithinCap(SafeMiB(quantity), quantity) <==> SafeMeetsCap(quantity)
  {
    if quantity >= 0 { SafeIsWithinLimit(quantity); } else { SafeOfNegative(quantity); }
  }

  /** `n` MiB are at most 95% of the limit. */
  predicate WithinCap(n: int, quantity: int) {
    n * (100 * MIB) <= quantity * 95
  }

  /** A size within the cap is not above the safe one, and one below the safe one is within the cap. */
  lemma CapIsAboutSafe(n: int, quantity: int)
    ensures WithinCap(n, quantity) ==> n <= SafeMiB(quantity)
    ensures n < SafeMiB(quantity) ==> WithinCap(n, quantity)
  {
    if quantity >= 0 { SafeIsWithinLimit(quantity); } else { SafeOfNegative(quantity); }
  }

  /** In bytes: a size exceeds a limit that is not negative if it has more bytes than that, and a negative one, which
      truncation raises, if it exceeds it by a MiB or more. */
  lemma LimitInBytes(n: int, quantity: int)
    ensures quantity >= 0 ==> (n > LimitMiB(quantity) <==> n * MIB > quantity)
    ensures quantity < 0 ==> (n > LimitMiB(quantity) <==> (n - 1) * MIB >= quantity)
  {}

  /******* Sets of arguments *******/

  /** The given cache sizes. */
  ghost function Sizes(args: set<Arg>): set<Arg> { WithKey(args, ARG_MAX_CACHE_SIZE) }

  function FillIn(args: set<Arg>, a: Arg): set<Arg> {
    if a.key in Keys(args) then args else args + {a}
  }

  /** The defaults that nothing was given for. */
  function FillInAll(args: set<Arg>, defaults: set<Arg>): set<Arg> {
    args + set a | a in defaults && a.key !in Keys(args)
  }

  lemma FillInFour(args: set<Arg>, a: Arg, b: Arg, c: Arg, d: Arg)
    requires a.key != b.key && a.key != c.key && a.key != d.key && b.key != c.key && b.key != d.key && c.key != d.key
    ensures FillIn(FillIn(FillIn(FillIn(args, a), b), c), d) == FillInAll(args, {a, b, c, d})
  {
    FillInNext(args, {}, a);
    FillInNext(args, {a}, b);
    FillInNext(args, {a, b}, c);
    FillInNext(args, {a, b, c}, d);
    assert FillInAll(args, {}) == args;
    assert {} + {a} == {a} && {a} + {b} == {a, b} && {a, b} + {c} == {a, b, c} && {a, b, c} + {d} == {a, b, c, d};
  }

  lemma FillInNext(args: set<Arg>, defaults: set<Arg>, a: Arg)
    requires a.key !in Keys(defaults)
    ensures FillIn(FillInAll(args, defaults), a) == FillInAll(args, defaults + {a})
  {
    assert a.key in Keys(FillInAll(args, defaults)) <==> a.key in Keys(args);
  }

  /******* The cache size *******/

  /** Why a given cache size is refused. */
  function SizeFailure(found: Option<Arg>, limitMiB: int): Option<Failure> {
    if found.None? then None
    else match ParseInt(found.value.value)
      case None => Some(BadCacheSize)
      case Some(n) => if n > limitMiB then Some(CacheSizeTooLarge) else None
  }

  /** Why a request is refused for the cache size that was looked at. */
  function CacheFailure(req: Request, found: Option<Arg>): Option<Failure> {
    if !HasSizeLimit(req) then None
    else if req.quantity.None? then Some(BadSizeLimit)
    else SizeFailure(found, LimitMiB(req.quantity.value))
  }

  /** The size that was looked at is refused as too large exactly if it has more bytes than the limit. */
  lemma RefusedExactlyAboveLimit(req: Request, found: Option<Arg>)
    requires HasSizeLimit(req) && req.quantity.Some? && req.quantity.value >= 0
    ensures CacheFailure(req, found) == Some(CacheSizeTooLarge) <==>
      && found.Some? && ParseInt(found.value.value).Some?
      && ParseInt(found.value.value).value * (1024 * 1024) > req.quantity.value
    ensures CacheFailure(req, found) == Some(BadCacheSize) <==> found.Some? && ParseInt(found.value.value).None?
  {
    if found.Some? && ParseInt(found.value.value).Some? {
      LimitInBytes(ParseInt(found.value.value).value, req.quantity.value);
    }
  }

  /** A size above the safe one. */
  predicate Oversized(found: Option<Arg>, safeMiB: int) {
    found.Some? && ParseInt(found.value.value).Some? && ParseInt(found.value.value).value > safeMiB
  }

  function SafeSize(quantity: int): Arg { Arg(ARG_MAX_CACHE_SIZE, FormatInt(SafeMiB(quantity))) }

  /** What the clamp makes of the arguments when it looks at the size `found` and, if that is too large, removes
      `victim`. */
  function Clamped(req: Request, args: set<Arg>, found: Option<Arg>, victim: Option<Arg>): set<Arg> {
    if !DiskBacked(req) || req.quantity.None? then args
    else
      FillIn(if Oversized(found, SafeMiB(req.quantity.value)) && victim.Some? then args - {victim.value} else args,
             SafeSize(req.quantity.value))
  }

  /** The iteration order of the set decides which of several sizes is looked at, and which is removed. */
  ghost predicate Chosen(args: set<Arg>, found: Option<Arg>, victim: Option<Arg>) {
    Findable(args, ARG_MAX_CACHE_SIZE, found) && Findable(args, ARG_MAX_CACHE_SIZE, victim)
  }

  /** For some iteration order the clamp fails with `failure`, or leaves `final`. */
  ghost predicate ClampOutcome(req: Request, args: set<Arg>, failure: Option<Failure>, final: set<Arg>) {
    exists found, victim ::
      && Chosen(args, found, victim) && failure == CacheFailure(req, found)
      && final == if failure.None? then Clamped(req, args, found, victim) else args
  }

  lemma CacheSizeKey()
    ensures NormalizeKey(ARG_MAX_CACHE_SIZE) == ARG_MAX_CACHE_SIZE
  {}

  lemma NoSizeNoKey(args: set<Arg>)
    ensures Sizes(args) == {} <==> ARG_MAX_CACHE_SIZE !in Keys(args)
  {
    assert forall a | a in args && a.key == ARG_MAX_CACHE_SIZE :: a in Sizes(args);
    assert forall a | a in Sizes(args) :: a in args && a.key == ARG_MAX_CACHE_SIZE;
  }

  lemma SomeSize(args: set<Arg>) returns (found: Option<Arg>)
    ensures Findable(args, ARG_MAX_CACHE_SIZE, found)
  {
    if Sizes(args) == {} {
      found := None;
    } else {
      var a :| a in Sizes(args);
      found := Some(a);
    }
  }

  /** Checks a given `--max-cache-size`, and for a disk-backed cache removes one if it is above the safe size. */
  method CheckUserSize(args: Args, medium: string, limitMiB: int, safeMiB: int)
    returns (failure: Option<Failure>, ghost found: Option<Arg>, ghost victim: Option<Arg>)
    modifies args
    ensures Chosen(old(args.args), found, victim) && failure == SizeFailure(found, limitMiB)
    ensures args.args ==
      if failure.None? && medium == STORAGE_MEDIUM_DEFAULT && Oversized(found, safeMiB) && victim.Some?
      then old(args.args) - {victim.value} else old(args.args)
  {
    CacheSizeKey();
    NoSizeNoKey(args.args);
    var maxCacheSize := args.Value(ARG_MAX_CACHE_SIZE);
    found := if maxCacheSize.Some? then Some(Arg(ARG_MAX_CACHE_SIZE, maxCacheSize.value)) else None;
    victim := found;
    if maxCacheSize.Some? {
      var n := ParseInt(maxCacheSize.value);
      if n.None? { return Some(BadCacheSize), found, victim; }
      if n.value > limitMiB { return Some(CacheSizeTooLarge), found, victim; }
      if medium == STORAGE_MEDIUM_DEFAULT && n.value > safeMiB {
        var removed := args.Remove(ARG_MAX_CACHE_SIZE);
        victim := removed;
      }
    }
    failure := None;
  }

  /** The clamp on `--max-cache-size`. */
  method ClampCacheSize(args: Args, req: Request) returns (failure: Option<Failure>)
    modifies args
    ensures ClampOutcome(req, old(args.args), failure, args.args)
  {
    CacheSizeKey();
    ghost var found := SomeSize(args.args);
    if req.sizeLimit == "" || req.cache != CACHE_TYPE_EMPTY_DIR {
      assert Chosen(args.args, found, found);
      return None;
    }
    if req.quantity.None? {
      assert Chosen(args.args, found, found);
      return Some(BadSizeLimit);
    }
    var limitMiB, safeMiB := LimitMiB(req.quantity.value), SafeMiB(req.quantity.value);
    ghost var victim;
    failure, found, victim := CheckUserSize(args, req.medium, limitMiB, safeMiB);
    if failure.Some? { return; }
    if req.medium == STORAGE_MEDIUM_DEFAULT {
      args.SetIfAbsent(ARG_MAX_CACHE_SIZE, FormatInt(safeMiB));
    }
    assert args.args == Clamped(req, old(args.args), found, victim);
  }

  /** The cap of an accepted disk-backed cache: there is a size, and each one is within 95% of the limit. */
  ghost predicate Capped(args: set<Arg>, quantity: int) {
    Sizes(args) != {} && forall a | a in Sizes(args) :: MeetsCap(a, quantity)
  }

  predicate MeetsCap(a: Arg, quantity: int) {
    ParseInt(a.value).Some? && WithinCap(ParseInt(a.value).value, quantity)
  }

  /** The check of a given size passes. */
  predicate Acceptable(a: Arg, quantity: int) {
    SizeFailure(Some(a), LimitMiB(quantity)).None?
  }

  /** Whatever the iteration order, if the clamp accepts then what it leaves is capped. */
  ghost predicate AlwaysCapped(req: Request, args: set<Arg>)
    requires req.quantity.Some?
  {
    forall final | ClampOutcome(req, args, None, final) :: Capped(final, req.quantity.value)
  }

  /** When that is so: without a size, the safe size has to be within the cap; with one, also that one will do; with
      several, all of them have to be, unless none can be accepted. */
  ghost predicate CapHolds(sizes: set<Arg>, quantity: int) {
    || (sizes != {} && forall a | a in sizes :: !Acceptable(a, quantity))
    || if |sizes| <= 1 then SafeMeetsCap(quantity) || exists a | a in sizes :: MeetsCap(a, quantity)
       else forall a | a in sizes :: MeetsCap(a, quantity)
  }

  lemma SafeSizeMeetsCapExactly(quantity: int)
    requires MIN_INT64 <= quantity <= MAX_INT64
    ensures MeetsCap(SafeSize(quantity), quantity) <==> SafeMeetsCap(quantity)
  {
    if quantity >= 0 { SafeIsWithinLimit(quantity); } else { SafeOfNegative(quantity); }
    FormatParse(SafeMiB(quantity));
    SafeMeetsCapExactly(quantity);
  }

  /** The sizes that the clamp leaves; the safe one only if no other is left. */
  lemma SizesLeft(req: Request, args: set<Arg>, found: Option<Arg>, victim: Option<Arg>)
    requires DiskBacked(req) && req.quantity.Some? && Chosen(args, found, victim)
    ensures var quantity := req.quantity.value;
      var rest := if Oversized(found, SafeMiB(quantity)) then Sizes(args) - {victim.value} else Sizes(args);
      Sizes(Clamped(req, args, found, victim)) == if rest == {} then {SafeSize(quantity)} else rest
  {
    NoSizeNoKey(args);
    if victim.Some? {
      var rest := args - {victim.value};
      assert Sizes(rest) == Sizes(args) - {victim.value};
      NoSizeNoKey(rest);
    }
  }

  lemma OneSize(sizes: set<Arg>, a: Arg)
    requires a in sizes && |sizes| <= 1
    ensures sizes == {a}
  {
    assert |sizes - {a}| == 0;
  }

  lemma OversizedIsNotCapped(a: Arg, quantity: int)
    ensures Oversized(Some(a), SafeMiB(quantity)) ==> !MeetsCap(a, quantity)
  {
    if ParseInt(a.value).Some? { CapIsAboutSafe(ParseInt(a.value).value, quantity); }
  }

  /** One size is kept or replaced by the safe one. */
  lemma OneSizeIsCappedExactly(a: Arg, quantity: int)
    requires Acceptable(a, quantity) && MIN_INT64 <= quantity <= MAX_INT64
    ensures MeetsCap(if Oversized(Some(a), SafeMiB(quantity)) then SafeSize(quantity) else a, quantity)
      <==> SafeMeetsCap(quantity) || MeetsCap(a, quantity)
  {
    OversizedIsNotCapped(a, quantity);
    SafeSizeMeetsCapExactly(quantity);
    if !Oversized(Some(a), SafeMiB(quantity)) {
      SafeMeetsCapExactly(quantity);
      WithinCapBelow(ParseInt(a.value).value, SafeMiB(quantity), quantity);
    }
  }

  lemma WithinCapBelow(n: int, m: int, quantity: int)
    requires n <= m
    ensures WithinCap(m, quantity) ==> WithinCap(n, quantity)
  {}

  lemma CappedOutcome(req: Request, args: set<Arg>, found: Option<Arg>, victim: Option<Arg>)
    requires DiskBacked(req) && req.quantity.Some? && MIN_INT64 <= req.quantity.value <= MAX_INT64
    requires Chosen(args, found, victim) && CacheFailure(req, found).None? && CapHolds(Sizes(args), req.quantity.value)
    ensures Capped(Clamped(req, args, found, victim), req.quantity.value)
  {
    SizesLeft(req, args, found, victim);
    if found.None? {
      SafeSizeMeetsCapExactly(req.quantity.value);
    } else if |Sizes(args)| <= 1 {
      OneSize(Sizes(args), found.value);
      OneSizeIsCappedExactly(found.value, req.quantity.value);
    } else {
      OversizedIsNotCapped(found.value, req.quantity.value);
    }
  }

  /** With several sizes, the one that is looked at may stay although it is above the safe size. */
  lemma UncappedAmongSeveral(req: Request, args: set<Arg>) returns (found: Option<Arg>, victim: Option<Arg>)
    requires DiskBacked(req) && req.quantity.Some?
    requires |Sizes(args)| > 1 && !CapHolds(Sizes(args), req.quantity.value)
    ensures Chosen(args, found, victim) && CacheFailure(req, found).None?
    ensures !Capped(Clamped(req, args, found, victim), req.quantity.value)
  {
    var sizes := Sizes(args);
    var a :| a in sizes && Acceptable(a, req.quantity.value);
    OversizedIsNotCapped(a, req.quantity.value);
    assert |sizes - {a}| >= 1;
    var other :| other in sizes - {a};
    found, victim := Some(a), Some(other);
    SizesLeft(req, args, found, victim);
  }

  /** An iteration order for which what is accepted is not capped. */
  lemma UncappedOutcome(req: Request, args: set<Arg>) returns (found: Option<Arg>, victim: Option<Arg>)
    requires DiskBacked(req) && req.quantity.Some? && MIN_INT64 <= req.quantity.value <= MAX_INT64
    requires !CapHolds(Sizes(args), req.quantity.value)
    ensures Chosen(args, found, victim) && CacheFailure(req, found).None?
    ensures !Capped(Clamped(req, args, found, victim), req.quantity.value)
  {
    var quantity, sizes := req.quantity.value, Sizes(args);
    if |sizes| > 1 {
      found, victim := UncappedAmongSeveral(req, args);
    } else if sizes == {} {
      found, victim := None, None;
      SafeSizeMeetsCapExactly(quantity);
      SizesLeft(req, args, found, victim);
    } else {
      var a :| a in sizes && Acceptable(a, quantity);
      found, victim := Some(a), Some(a);
      OneSize(sizes, a);
      OneSizeIsCappedExactly(a, quantity);
      SizesLeft(req, args, found, victim);
    }
  }

  /** What the clamp is for, exactly. */
  lemma ClampedIsCappedExactly(req: Request, args: set<Arg>)
    requires DiskBacked(req) && req.quantity.Some? && MIN_INT64 <= req.quantity.value <= MAX_INT64
    ensures AlwaysCapped(req, args) <==> CapHolds(Sizes(args), req.quantity.value)
  {
    if CapHolds(Sizes(args), req.quantity.value) {
      forall final | ClampOutcome(req, args, None, final) ensures Capped(final, req.quantity.value) {
        var found: Option<Arg>, victim: Option<Arg> :| Chosen(args, found, victim) && CacheFailure(req, found).None?
          && final == Clamped(req, args, found, victim);
        CappedOutcome(req, args, found, victim);
      }
    } else {
      var found, victim := UncappedOutcome(req, args);
      assert ClampOutcome(req, args, None, Clamped(req, args, found, victim));
    }
  }

  /******* The whole request *******/

  function GroupDefaults(group: string): set<Arg> {
    {Arg(ARG_GID, group), Arg(ARG_ALLOW_OTHER, ARG_NO_VALUE), Arg(ARG_DIR_MODE, FILE_PERM_770),
     Arg(ARG_FILE_MODE, FILE_PERM_660)}
  }

  /** What a request adds where the user has said nothing: access for the file system group, or for root. */
  function Defaults(req: Request, given: set<Arg>): set<Arg> {
    var group := if req.mount.Some? then req.mount.value.volumeMountGroup else "";
    if group != "" then GroupDefaults(group)
    else if ARG_ALLOW_OTHER in Keys(given) then {}
    else {Arg(ARG_ALLOW_ROOT, ARG_NO_VALUE)}
  }

  lemma GroupKeys() returns (keys: seq<string>)
    ensures keys == [ARG_GID, ARG_ALLOW_OTHER, ARG_DIR_MODE, ARG_FILE_MODE]
    ensures forall i, j | 0 <= i < j < 4 :: keys[i] != keys[j]
    ensures forall k | k in keys :: NormalizeKey(k) == k && k != ARG_MAX_CACHE_SIZE
  {
    keys := [ARG_GID, ARG_ALLOW_OTHER, ARG_DIR_MODE, ARG_FILE_MODE];
    assert ARG_GID[2] == 'g' && ARG_ALLOW_OTHER[2] == 'a' && ARG_DIR_MODE[2] == 'd' && ARG_FILE_MODE[2] == 'f';
    assert ARG_MAX_CACHE_SIZE[2] == 'm';
  }

  method AddGroupDefaults(args: Args, group: string)
    modifies args
    ensures args.args == FillInAll(old(args.args), GroupDefaults(group))
  {
    ghost var keys := GroupKeys();
    ghost var given := args.args;
    args.SetIfAbsent(ARG_GID, group);
    args.SetIfAbsent(ARG_ALLOW_OTHER, ARG_NO_VALUE);
    args.SetIfAbsent(ARG_DIR_MODE, FILE_PERM_770);
    args.SetIfAbsent(ARG_FILE_MODE, FILE_PERM_660);
    FillInFour(given, Arg(keys[0], group), Arg(keys[1], ARG_NO_VALUE),
               Arg(keys[2], FILE_PERM_770), Arg(keys[3], FILE_PERM_660));
  }

  /** The given arguments win over the defaults. */
  method AddDefaults(args: Args, req: Request)
    modifies args
    ensures args.args == FillInAll(old(args.args), Defaults(req, old(args.args)))
  {
    if req.mount.Some? {
      var volumeMountGroup := req.mount.value.volumeMountGroup;
      if volumeMountGroup != "" {
        AddGroupDefaults(args, volumeMountGroup);
        assert ARG_ALLOW_OTHER in Keys(args.args) by {
          assert Arg(ARG_ALLOW_OTHER, ARG_NO_VALUE) in GroupDefaults(volumeMountGroup);
        }
      }
    }
    var others := args.Has(ARG_ALLOW_OTHER);
    if !others {
      args.SetIfAbsent(ARG_ALLOW_ROOT, ARG_NO_VALUE);
    }
  }

  /** For some iteration order a request is refused with `failure`, the first reason found, or mounted with `final`. */
  ghost predicate RequestOutcome(req: Request, given: set<Arg>, failure: Option<Failure>, final: set<Arg>) {
    if ARG_FS_TAB in Keys(given) then failure == Some(FsTabFlag)
    else if ARG_CA_BUNDLE in Keys(given) then failure == Some(CaBundleFlag)
    else ClampOutcome(req, FillInAll(given, Defaults(req, given)), failure, final)
  }

  /** What the user gives: an argument for a read-only volume or access mode, and the mount flags. */
  ghost predicate IsGiven(req: Request, a: Arg) {
    || ((req.readonly || req.readerOnlyMany) && a == Arg("--read-only", ""))
    || (req.mount.Some? && exists flag | flag in req.mount.value.flags :: ParseArg(flag) == Some(a))
  }

  lemma ReadOnlyParses(flag: string)
    requires flag == "--read-only"
    ensures ParseArg(flag) == Some(Arg(flag, ""))
  {
    assert IsAlone(flag, "", flag, "");
    ParseArgExactly(flag, flag, "", flag);
  }

  lemma GivenExactly(req: Request, a: Arg)
    ensures a in ParseSet(PassedArgs(req)) <==> IsGiven(req, a)
  {
    ParsedMember(PassedArgs(req), a);
    if flag :| flag in PassedArgs(req) && ParseArg(flag) == Some(a) { PassedIsGiven(req, flag, a); }
    if IsGiven(req, a) { GivenIsPassed(req, a); }
  }

  lemma ParsedMember(passed: seq<string>, a: Arg)
    ensures a in ParseSet(passed) <==> exists flag :: flag in passed && ParseArg(flag) == Some(a)
  {}

  lemma PassedIsGiven(req: Request, flag: string, a: Arg)
    requires flag in PassedArgs(req) && ParseArg(flag) == Some(a)
    ensures IsGiven(req, a)
  {
    PassedMember(req, flag);
    if flag == "--read-only" { ReadOnlyParses(flag); }
  }

  lemma PassedMember(req: Request, flag: string)
    ensures flag in PassedArgs(req) <==>
      || ((req.readonly || req.readerOnlyMany) && flag == "--read-only")
      || (req.mount.Some? && flag in req.mount.value.flags)
  {}

  lemma GivenIsPassed(req: Request, a: Arg)
    requires IsGiven(req, a)
    ensures exists flag :: flag in PassedArgs(req) && ParseArg(flag) == Some(a)
  {
    if req.mount.Some? && exists flag | flag in req.mount.value.flags :: ParseArg(flag) == Some(a) {
      var flag :| flag in req.mount.value.flags && ParseArg(flag) == Some(a);
      PassedMember(req, flag);
    } else {
      PassedMember(req, a.key);
      ReadOnlyParses(a.key);
    }
  }

  ghost predicate NothingGivenFor(req: Request, key: string) {
    forall b | IsGiven(req, b) :: b.key != key
  }

  /** What is added where nothing is given: with a file system group, the group and access for it; otherwise access for
      root, unless others are allowed. */
  ghost predicate IsAdded(req: Request, a: Arg) {
    && NothingGivenFor(req, a.key)
    && if req.mount.Some? && req.mount.value.volumeMountGroup != "" then
         || a == Arg("--gid", req.mount.value.volumeMountGroup) || a == Arg("--allow-other", "")
         || a == Arg("--dir-mode", "770") || a == Arg("--file-mode", "660")
       else a == Arg("--allow-root", "") && NothingGivenFor(req, "--allow-other")
  }

  lemma NothingGivenExactly(req: Request, key: string)
    ensures NothingGivenFor(req, key) <==> key !in Keys(ParseSet(PassedArgs(req)))
  {
    var given := ParseSet(PassedArgs(req));
    forall b ensures b in given <==> IsGiven(req, b) { GivenExactly(req, b); }
    if key in Keys(given) {
      var b :| b in given && b.key == key;
    }
  }

  lemma DefaultsExactly(req: Request, given: set<Arg>, a: Arg)
    ensures a in Defaults(req, given) <==>
      if req.mount.Some? && req.mount.value.volumeMountGroup != "" then
        || a == Arg("--gid", req.mount.value.volumeMountGroup) || a == Arg("--allow-other", "")
        || a == Arg("--dir-mode", "770") || a == Arg("--file-mode", "660")
      else a == Arg("--allow-root", "") && "--allow-other" !in Keys(given)
  {}

  lemma FilledInExactly(given: set<Arg>, defaults: set<Arg>, a: Arg)
    ensures a in FillInAll(given, defaults) <==> a in given || (a in defaults && a.key !in Keys(given))
  {}

  lemma FilledExactly(req: Request, given: set<Arg>, a: Arg)
    requires given == ParseSet(PassedArgs(req))
    ensures a in FillInAll(given, Defaults(req, given)) <==> IsGiven(req, a) || IsAdded(req, a)
  {
    GivenExactly(req, a);
    NothingGivenExactly(req, a.key);
    NothingGivenExactly(req, "--allow-other");
    DefaultsExactly(req, given, a);
    FilledInExactly(given, Defaults(req, given), a);
  }

  lemma FillingIsExact(req: Request)
    ensures var given := ParseSet(PassedArgs(req));
      forall a :: a in FillInAll(given, Defaults(req, given)) <==> IsGiven(req, a) || IsAdded(req, a)
  {
    var given := ParseSet(PassedArgs(req));
    forall a ensures a in FillInAll(given, Defaults(req, given)) <==> IsGiven(req, a) || IsAdded(req, a) {
      FilledExactly(req, given, a);
    }
  }

  method MountArguments(req: Request) returns (failure: Option<Failure>, final: set<Arg>)
    ensures RequestOutcome(req, ParseSet(PassedArgs(req)), failure, final)
    // cache sizes apart, it is mounted with what is given and what is added, and nothing else
    ensures failure.None? ==>
      forall a: Arg | a.key != "--max-cache-size" :: a in final <==> IsGiven(req, a) || IsAdded(req, a)
    // and this is why it is refused for anything but a cache size
    ensures failure == Some(FsTabFlag) <==> !NothingGivenFor(req, "-o")
    ensures failure == Some(CaBundleFlag) <==> NothingGivenFor(req, "-o") && !NothingGivenFor(req, "--ca-bundle")
    ensures failure == Some(BadSizeLimit) <==>
      && NothingGivenFor(req, "-o") && NothingGivenFor(req, "--ca-bundle")
      && req.sizeLimit != "" && req.cache == "emptyDir" && req.quantity.None?
  {
    NothingGivenExactly(req, "-o");
    NothingGivenExactly(req, "--ca-bundle");
    FillingIsExact(req);
    var args := GivenArguments(req);
    ghost var given := args.args;
    var unsupported := args.Has(ARG_FS_TAB);
    if unsupported { return Some(FsTabFlag), {}; }
    unsupported := args.Has(ARG_CA_BUNDLE);
    if unsupported { return Some(CaBundleFlag), {}; }
    AddDefaults(args, req);
    ghost var filled := args.args;
    failure := ClampCacheSize(args, req);
    final := args.args;
    if failure.None? { ClampTouchesSizesOnly(req, filled, final); }
  }

  method GivenArguments(req: Request) returns (args: Args)
    ensures fresh(args) && args.args == ParseSet(PassedArgs(req))
  {
    var mountpointArgs := [];
    if req.readonly || req.readerOnlyMany { mountpointArgs := mountpointArgs + [ARG_READ_ONLY]; }
    if req.mount.Some? { mountpointArgs := mountpointArgs + req.mount.value.flags; }
    assert mountpointArgs == PassedArgs(req);
    args := new Args.Parse(mountpointArgs);
  }

  lemma DefaultKeys(req: Request, given: set<Arg>)
    ensures forall a | a in Defaults(req, given) :: a.key != ARG_MAX_CACHE_SIZE
  {
    var keys := GroupKeys();
    assert ARG_MAX_CACHE_SIZE[2] == 'm' && ARG_ALLOW_ROOT[2] == 'a';
    forall a | a in Defaults(req, given) ensures a.key in keys || a.key == ARG_ALLOW_ROOT {}
  }

  lemma DefaultsKeepSizes(req: Request, given: set<Arg>)
    ensures Sizes(FillInAll(given, Defaults(req, given))) == Sizes(given)
  {
    DefaultKeys(req, given);
  }

  lemma DefaultsGiveAccess(req: Request, given: set<Arg>)
    ensures exists a :: (a in FillInAll(given, Defaults(req, given))
                         && (a.key == ARG_ALLOW_OTHER || a.key == ARG_ALLOW_ROOT))
  {
    if !(ARG_ALLOW_OTHER in Keys(given)) && !(ARG_ALLOW_ROOT in Keys(given)) {
      var root, other := Arg(ARG_ALLOW_ROOT, ARG_NO_VALUE), Arg(ARG_ALLOW_OTHER, ARG_NO_VALUE);
      assert root in Defaults(req, given) || other in Defaults(req, given);
      assert root in FillInAll(given, Defaults(req, given)) || other in FillInAll(given, Defaults(req, given));
    } else if ARG_ALLOW_OTHER in Keys(given) {
      var a :| a in given && a.key == ARG_ALLOW_OTHER;
      assert a in FillInAll(given, Defaults(req, given));
    } else {
      var a :| a in given && a.key == ARG_ALLOW_ROOT;
      assert a in FillInAll(given, Defaults(req, given));
    }
  }

  /** The clamp takes away sizes only, and adds the safe size only. */
  lemma ClampTouchesSizesOnly(req: Request, args: set<Arg>, final: set<Arg>)
    requires ClampOutcome(req, args, None, final)
    ensures forall a: Arg | a.key != ARG_MAX_CACHE_SIZE :: a in final <==> a in args
    ensures !DiskBacked(req) ==> final == args
    ensures DiskBacked(req) ==> req.quantity.Some? && Sizes(final) <= Sizes(args) + {SafeSize(req.quantity.value)}
  {
    var found: Option<Arg>, victim: Option<Arg> :| Chosen(args, found, victim) && CacheFailure(req, found).None?
      && final == Clamped(req, args, found, victim);
    if DiskBacked(req) { SizesLeft(req, args, found, victim); }
  }

  ghost predicate NoneOversized(sizes: set<Arg>, safeMiB: int) {
    forall a | a in sizes :: !Oversized(Some(a), safeMiB)
  }

  /** Sizes of which none is above the safe one are left alone. */
  lemma SafeSizesAreKept(req: Request, args: set<Arg>, final: set<Arg>)
    requires ClampOutcome(req, args, None, final) && DiskBacked(req) && req.quantity.Some? && Sizes(args) != {}
    requires NoneOversized(Sizes(args), SafeMiB(req.quantity.value))
    ensures Sizes(final) == Sizes(args)
  {
    var found: Option<Arg>, victim: Option<Arg> :| Chosen(args, found, victim) && CacheFailure(req, found).None?
      && final == Clamped(req, args, found, victim);
    SizesLeft(req, args, found, victim);
  }

  /** Every accepted request: of the user's other arguments all are kept, and only access for others is added; and a
      cache size is the user's own or, for a disk-backed cache, the safe one, which is not used if none is above it. */
  lemma AcceptedArguments(req: Request, given: set<Arg>, final: set<Arg>)
    requires RequestOutcome(req, given, None, final)
    ensures forall a: Arg | a.key != ARG_MAX_CACHE_SIZE :: a in final <==> a in FillInAll(given, Defaults(req, given))
    ensures ARG_ALLOW_OTHER in Keys(final) || ARG_ALLOW_ROOT in Keys(final)
    ensures !DiskBacked(req) ==> Sizes(final) == Sizes(given)
    ensures DiskBacked(req) ==> req.quantity.Some? && Sizes(final) <= Sizes(given) + {SafeSize(req.quantity.value)}
    ensures DiskBacked(req) && Sizes(given) != {} && NoneOversized(Sizes(given), SafeMiB(req.quantity.value)) ==>
      Sizes(final) == Sizes(given)
  {
    var filled := FillInAll(given, Defaults(req, given));
    DefaultsKeepSizes(req, given);
    ClampTouchesSizesOnly(req, filled, final);
    AccessIsGiven(req, given, final);
    if DiskBacked(req) && Sizes(given) != {} && NoneOversized(Sizes(given), SafeMiB(req.quantity.value)) {
      SafeSizesAreKept(req, filled, final);
    }
  }

  lemma AccessIsGiven(req: Request, given: set<Arg>, final: set<Arg>)
    requires RequestOutcome(req, given, None, final)
    ensures ARG_ALLOW_OTHER in Keys(final) || ARG_ALLOW_ROOT in Keys(final)
  {
    DefaultsGiveAccess(req, given);
    var filled := FillInAll(given, Defaults(req, given));
    var a :| a in filled && (a.key == ARG_ALLOW_OTHER || a.key == ARG_ALLOW_ROOT);
    assert ARG_MAX_CACHE_SIZE[2] == 'm' && ARG_ALLOW_ROOT[2] == 'a' && ARG_ALLOW_OTHER[2] == 'a';
    ClampTouchesSizesOnly(req, filled, final);
    assert a in final;
  }

  /** Whatever the iteration order, if the request is accepted then its disk-backed cache is capped. */
  ghost predicate RequestAlwaysCapped(req: Request, given: set<Arg>)
    requires req.quantity.Some?
  {
    forall final | RequestOutcome(req, given, None, final) :: Capped(final, req.quantity.value)
  }

  /** The cap of a disk-backed request, exactly. */
  lemma CapIsMetExactly(req: Request, given: set<Arg>)
    requires req.sizeLimit != "" && req.cache == "emptyDir" && req.medium == ""
    requires req.quantity.Some? && MIN_INT64 <= req.quantity.value <= MAX_INT64
    ensures RequestAlwaysCapped(req, given) <==>
      ARG_FS_TAB in Keys(given) || ARG_CA_BUNDLE in Keys(given) || CapHolds(Sizes(given), req.quantity.value)
  {
    var filled := FillInAll(given, Defaults(req, given));
    DefaultsKeepSizes(req, given);
    ClampedIsCappedExactly(req, filled);
    if !(ARG_FS_TAB in Keys(given)) && !(ARG_CA_BUNDLE in Keys(given)) {
      assert forall final :: RequestOutcome(req, given, None, final) <==> ClampOutcome(req, filled, None, final);
    }
  }
}
