/**
 `system.fileinfo` of src/lfilef.c: one character of `mode` per value wanted, four sources of values.

 The code asks one source after the other, and after each answer walks the whole mode string, putting
 the values it can at their slots of the Lua stack.  Slots of sources still to be asked are padded with
 nil, and stale copies are left behind.  The reference computes every value at its place at once.
 */
module FileInfo {

  type Bits = bv16

  const READLINK: Bits := 0x01
  const REALPATH: Bits := 0x02
  const STATFS: Bits := 0x04
  const STAT: Bits := 0x08
  const LSTAT: Bits := 0x10
  const NOYIELD: Bits := 0x20
  const SRCMASK: Bits := 0x0f
  const BITMASK: Bits := 0x3f

  datatype Source = Stat | StatFs | RealPath | ReadLink

  function Bit(s: Source): Bits {
    match s
    case Stat => STAT
    case StatFs => STATFS
    case RealPath => REALPATH
    case ReadLink => READLINK
  }

  /** A slot of the Lua stack: an argument, the state kept across async, or what a source (asked for a link
      itself, or for what it leads to) answers for one character. */
  datatype Value = Nil | Arg(i: nat) | State(bits: Bits) | Data(src: Source, lstat: bool, c: char)

  const EINVAL := -22

  datatype Reply = Found | Fails(code: int)

  datatype Replies = Replies(stat: Reply, statfs: Reply, realpath: Reply, readlink: Reply)
  {
    function Of(s: Source): Reply {
      match s
      case Stat => stat
      case StatFs => statfs
      case RealPath => realpath
      case ReadLink => readlink
    }
  }

  datatype Outcome =
    | Values(vals: seq<Value>)
    | BadPosition(c: char)
    | UnknownChar(c: char)
    | QueryFailed(src: Source, reply: Reply)

  // ---------------------------------------------------------------- reference

  const STAT_CHARS := "?UGSrwxRWX421MD#*ugdBib_vamsc"
  const STATFS_CHARS := "@NITFAtf"

  datatype Maybe = Nothing | Just(src: Source)

  /** The source of a character, if it has one. */
  function SourceOf(c: char): Maybe {
    if c in STAT_CHARS then Just(Stat)
    else if c in STATFS_CHARS then Just(StatFs)
    else if c == 'p' then Just(RealPath)
    else if c == '=' then Just(ReadLink)
    else Nothing
  }

  predicate IsFlag(c: char) {
    c == '~' || c == 'l'
  }

  /** Number of leading flags. */
  function FlagCount(mode: string): (k: nat)
    ensures k <= |mode|
  {
    if mode == "" || !IsFlag(mode[0]) then 0 else 1 + FlagCount(mode[1..])
  }

  predicate Wants(mode: string, s: Source) {
    exists i :: 0 <= i < |mode| && SourceOf(mode[i]) == Just(s)
  }

  /** An answer that ends the call with an error: all but "not a link" from `uv_fs_readlink`. */
  predicate Bad(r: Reply, s: Source) {
    r.Fails? && !(s == ReadLink && r.code == EINVAL)
  }

  function ValueOf(c: char, lstat: bool, replies: Replies): Value {
    match SourceOf(c)
    case Nothing => Nil
    case Just(s) =>
      if s == ReadLink && replies.readlink == Fails(EINVAL) then Nil else Data(s, s == Stat && lstat, c)
  }

  /** Sources in the order the code asks them. */
  function Nth(k: nat): Source {
    if k == 0 then Stat else if k == 1 then StatFs else if k == 2 then RealPath else ReadLink
  }

  /** The first source, from the `k`-th on, that is wanted and fails. */
  function FirstFailure(mode: string, replies: Replies, k: nat): Maybe
    requires k <= 4
    decreases 4 - k
  {
    if k == 4 then Nothing
    else if Wants(mode, Nth(k)) && Bad(replies.Of(Nth(k)), Nth(k)) then Just(Nth(k))
    else FirstFailure(mode, replies, k + 1)
  }

  /** The sources, from the `k`-th on, that are wanted, up to the first that fails. */
  function Queries(mode: string, replies: Replies, k: nat): seq<Source>
    requires k <= 4
    decreases 4 - k
  {
    if k == 4 then []
    else if !Wants(mode, Nth(k)) then Queries(mode, replies, k + 1)
    else if Bad(replies.Of(Nth(k)), Nth(k)) then [Nth(k)]
    else [Nth(k)] + Queries(mode, replies, k + 1)
  }

  /** Position of the first character that asks for no value. */
  function Offender(mode: string): (i: nat)
    ensures i <= |mode|
  {
    if mode == "" || SourceOf(mode[0]) == Nothing then 0 else 1 + Offender(mode[1..])
  }

  function OnePass(mode: string, replies: Replies): Outcome {
    var k := FlagCount(mode);
    var rest, lstat := mode[k..], 'l' in mode[..k];
    var i := Offender(rest);
    if i < |rest| then (if IsFlag(rest[i]) then BadPosition(rest[i]) else UnknownChar(rest[i]))
    else
      match FirstFailure(rest, replies, 0)
      case Just(s) => QueryFailed(s, replies.Of(s))
      case Nothing => Values(seq(|rest|, j requires 0 <= j < |rest| => ValueOf(rest[j], lstat, replies)))
  }

  /** Position of a source in the order of asking. */
  function Rank(s: Source): (k: nat)
    ensures k < 4 && Nth(k) == s
  {
    match s
    case Stat => 0
    case StatFs => 1
    case RealPath => 2
    case ReadLink => 3
  }

  lemma NthRank(k: nat)
    requires k < 4
    ensures Rank(Nth(k)) == k
  {
  }

  /** Each source is asked once at most; it is asked if and only if it is wanted and no wanted source
      before it in the order fails. */
  lemma {:induction false} AskedOnce(mode: string, replies: Replies, k: nat, s: Source)
    requires k <= 4
    ensures multiset(Queries(mode, replies, k))[s] <= 1
    ensures s in Queries(mode, replies, k) <==>
            && k <= Rank(s) && Wants(mode, s)
            && forall m: nat :: k <= m < Rank(s) ==> !(Wants(mode, Nth(m)) && Bad(replies.Of(Nth(m)), Nth(m)))
    decreases 4 - k
  {
    if k < 4 {
      AskedOnce(mode, replies, k + 1, s);
      NthRank(k);
      assert s == Nth(k) <==> Rank(s) == k;
      var all, rest := Queries(mode, replies, k), Queries(mode, replies, k + 1);
      if Wants(mode, Nth(k)) {
        if Bad(replies.Of(Nth(k)), Nth(k)) {
          assert all == [Nth(k)];
        } else {
          assert all == [Nth(k)] + rest;
          assert multiset([Nth(k)] + rest) == multiset{Nth(k)} + multiset(rest);
        }
      } else {
        assert all == rest;
      }
    }
  }

  lemma AskedInOrder(mode: string, replies: Replies, k: nat)
    requires k <= 4
    ensures forall i :: 0 <= i < |Queries(mode, replies, k)| ==> k <= Rank(Queries(mode, replies, k)[i])
    ensures forall i, j :: 0 <= i < j < |Queries(mode, replies, k)| ==>
              Rank(Queries(mode, replies, k)[i]) < Rank(Queries(mode, replies, k)[j])
    decreases 4 - k
  {
    if k < 4 {
      NthRank(k);
      AskedInOrder(mode, replies, k + 1);
      var all, rest := Queries(mode, replies, k), Queries(mode, replies, k + 1);
      assert all == rest || all == [Nth(k)] || all == [Nth(k)] + rest;
    }
  }

  // ---------------------------------------------------------------- what the reference means

  /** The characters of each source, as documented: type and permissions, the other fields of the file, those
      of its file system, its path and its link. */
  lemma SourceIs(c: char)
    ensures SourceOf(c) == Just(Stat) <==>
              || c in {'?', 'U', 'G', 'S', 'r', 'w', 'x', 'R', 'W', 'X', '4', '2', '1'}
              || c in {'M', '_', 'u', 'g', '#', 'D', 'd', '*', 'B', 'b', 'i', 'v', 'a', 's', 'm', 'c'}
    ensures SourceOf(c) == Just(StatFs) <==> c in {'@', 'N', 'I', 'A', 'F', 'f', 'T', 't'}
    ensures SourceOf(c) == Just(RealPath) <==> c == 'p'
    ensures SourceOf(c) == Just(ReadLink) <==> c == '='
  {
  }

  /** What the words of the reference stand for. */
  lemma Words(mode: string, replies: Replies, s: Source)
    ensures Wants(mode, s) <==> exists i :: 0 <= i < |mode| && SourceOf(mode[i]) == Just(s)
    ensures Bad(replies.Of(s), s) <==>
              match s
              case Stat => replies.stat.Fails?
              case StatFs => replies.statfs.Fails?
              case RealPath => replies.realpath.Fails?
              case ReadLink => replies.readlink.Fails? && replies.readlink.code != -22
    ensures Rank(Stat) == 0 && Rank(StatFs) == 1 && Rank(RealPath) == 2 && Rank(ReadLink) == 3
  {
  }

  lemma {:induction false} LeadingFlags(mode: string)
    ensures forall i :: 0 <= i < FlagCount(mode) ==> mode[i] == '~' || mode[i] == 'l'
    ensures FlagCount(mode) < |mode| ==> mode[FlagCount(mode)] != '~' && mode[FlagCount(mode)] != 'l'
  {
    if mode != "" && IsFlag(mode[0]) {
      LeadingFlags(mode[1..]);
      forall i | 0 <= i < FlagCount(mode) ensures mode[i] == '~' || mode[i] == 'l' {
        assert i > 0 ==> mode[i] == mode[1..][i - 1];
      }
    }
  }

  lemma {:induction false} FirstOffender(mode: string)
    ensures forall i :: 0 <= i < Offender(mode) ==> SourceOf(mode[i]).Just?
    ensures Offender(mode) < |mode| ==> SourceOf(mode[Offender(mode)]) == Nothing
  {
    if mode != "" && SourceOf(mode[0]) != Nothing {
      FirstOffender(mode[1..]);
      forall i | 0 <= i < Offender(mode) ensures SourceOf(mode[i]).Just? {
        assert i > 0 ==> mode[i] == mode[1..][i - 1];
      }
    }
  }

  lemma {:induction false} FirstFailureIs(mode: string, replies: Replies, k: nat)
    requires k <= 4
    ensures match FirstFailure(mode, replies, k)
            case Just(s) =>
              && k <= Rank(s) && Wants(mode, s) && Bad(replies.Of(s), s)
              && forall r :: k <= Rank(r) < Rank(s) ==> !(Wants(mode, r) && Bad(replies.Of(r), r))
            case Nothing => forall r :: k <= Rank(r) ==> !(Wants(mode, r) && Bad(replies.Of(r), r))
    decreases 4 - k
  {
    if k < 4 {
      NthRank(k);
      FirstFailureIs(mode, replies, k + 1);
      assert forall r :: Rank(r) == k ==> r == Nth(k);
    }
  }

  /** An error in the mode string is that of its first character, behind the flags, that has no source. */
  lemma RefusedMeans(mode: string, replies: Replies)
    ensures var r, rest := OnePass(mode, replies), mode[FlagCount(mode)..];
            && (r.BadPosition? || r.UnknownChar? <==> exists i :: 0 <= i < |rest| && SourceOf(rest[i]) == Nothing)
            && (r.BadPosition? || r.UnknownChar? ==>
                  && (r.BadPosition? <==> r.c == '~' || r.c == 'l')
                  && exists i :: 0 <= i < |rest| && rest[i] == r.c && SourceOf(rest[i]) == Nothing
                       && forall j :: 0 <= j < i ==> SourceOf(rest[j]).Just?)
  {
    FirstOffender(mode[FlagCount(mode)..]);
  }

  /** Else the call fails with the first source, in the order of asking, that is wanted and fails (but a path
      that is no link is no failure); and succeeds if there is none. */
  lemma FailedMeans(mode: string, replies: Replies)
    requires !OnePass(mode, replies).BadPosition? && !OnePass(mode, replies).UnknownChar?
    ensures var r, rest := OnePass(mode, replies), mode[FlagCount(mode)..];
            && (r.QueryFailed? ==>
                  && Wants(rest, r.src) && Bad(replies.Of(r.src), r.src) && r.reply == replies.Of(r.src)
                  && forall s :: Rank(s) < Rank(r.src) ==> !(Wants(rest, s) && Bad(replies.Of(s), s)))
            && (r.Values? ==> forall s :: !(Wants(rest, s) && Bad(replies.Of(s), s)))
  {
    FirstFailureIs(mode[FlagCount(mode)..], replies, 0);
  }

  /** Slot i: nil for a path that is no link, and otherwise what the source of character i answers for it. */
  lemma SlotsMean(mode: string, replies: Replies)
    ensures var r, k := OnePass(mode, replies), FlagCount(mode);
            r.Values? ==>
              && |r.vals| == |mode| - k
              && forall i :: 0 <= i < |r.vals| ==>
                   var c := mode[k + i];
                   && SourceOf(c).Just?
                   && (r.vals[i] == Nil <==> c == '=' && replies.readlink == Fails(-22))
                   && (r.vals[i] != Nil ==> r.vals[i] == Data(SourceOf(c).src, SourceOf(c).src == Stat && 'l' in mode[..k], c))
  {
    var r, k := OnePass(mode, replies), FlagCount(mode);
    if r.Values? {
      forall i | 0 <= i < |r.vals|
        ensures var c := mode[k + i];
                && SourceOf(c).Just?
                && (r.vals[i] == Nil <==> c == '=' && replies.readlink == Fails(-22))
                && (r.vals[i] != Nil ==> r.vals[i] == Data(SourceOf(c).src, SourceOf(c).src == Stat && 'l' in mode[..k], c))
      {
        SlotMeans(mode, replies, i);
      }
    }
  }

  lemma SlotMeans(mode: string, replies: Replies, i: nat)
    requires OnePass(mode, replies).Values? && i < |mode| - FlagCount(mode)
    ensures var vals, c := OnePass(mode, replies).vals, mode[FlagCount(mode) + i];
            && |vals| == |mode| - FlagCount(mode) && SourceOf(c).Just?
            && (vals[i] == Nil <==> c == '=' && replies.readlink == Fails(-22))
            && (vals[i] != Nil ==> vals[i] == Data(SourceOf(c).src, SourceOf(c).src == Stat && 'l' in mode[..FlagCount(mode)], c))
  {
    var k := FlagCount(mode);
    FirstOffender(mode[k..]);
    assert mode[k..][i] == mode[k + i];
    ValueMeans(mode[k + i], 'l' in mode[..k], replies);
    OnePassSlot(mode, replies, i);
  }

  lemma OnePassSlot(mode: string, replies: Replies, i: nat)
    requires OnePass(mode, replies).Values? && i < |mode| - FlagCount(mode)
    ensures |OnePass(mode, replies).vals| == |mode| - FlagCount(mode)
    ensures OnePass(mode, replies).vals[i] == ValueOf(mode[FlagCount(mode)..][i], 'l' in mode[..FlagCount(mode)], replies)
    ensures Offender(mode[FlagCount(mode)..]) == |mode[FlagCount(mode)..]|
  {
  }

  lemma ValueMeans(c: char, lstat: bool, replies: Replies)
    requires SourceOf(c).Just?
    ensures ValueOf(c, lstat, replies) == Nil <==> c == '=' && replies.readlink == Fails(-22)
    ensures ValueOf(c, lstat, replies) != Nil ==>
              ValueOf(c, lstat, replies) == Data(SourceOf(c).src, SourceOf(c).src == Stat && lstat, c)
  {
    SourceIs(c);
  }

  // ---------------------------------------------------------------- the code

  /** `toinfosrc` for the characters that are no flags. */
  function ToInfoSrc(c: char): Bits {
    if c == '?' || c == 'U' || c == 'G' || c == 'S' || c == 'r' || c == 'w' || c == 'x' || c == 'R' || c == 'W'
       || c == 'X' || c == '4' || c == '2' || c == '1' || c == 'M' || c == 'D' || c == '#' || c == '*' || c == 'u'
       || c == 'g' || c == 'd' || c == 'B' || c == 'i' || c == 'b' || c == '_' || c == 'v' || c == 'a' || c == 'm'
       || c == 's' || c == 'c' then STAT
    else if c == '@' || c == 'N' || c == 'I' || c == 'T' || c == 'F' || c == 'A' || c == 't' || c == 'f' then STATFS
    else if c == 'p' then REALPATH
    else if c == '=' then READLINK
    else 0
  }

  /** The switch of `pushfilestat`: the characters it pushes a value for. */
  predicate InStat(c: char) {
    c == '?'
    || c == 'U' || c == 'G' || c == 'S' || c == 'r' || c == 'w' || c == 'x' || c == 'R' || c == 'W' || c == 'X'
    || c == '4' || c == '2' || c == '1'
    || c == 'M' || c == 'D' || c == '#' || c == '*' || c == 'u' || c == 'g' || c == 'd' || c == 'B' || c == 'i'
    || c == 'b' || c == '_' || c == 'v'
    || c == 'a' || c == 'm' || c == 's' || c == 'c'
  }

  /** The switch of `pushfileinfo` on an answer of `uv_fs_statfs`. */
  predicate InStatFs(c: char) {
    c == '@' || c == 'N' || c == 'I' || c == 'T' || c == 'F' || c == 'A' || c == 't' || c == 'f'
  }

  /** The switches agree on which source a character belongs to. */
  lemma SwitchesAgree(c: char)
    ensures ToInfoSrc(c) == match SourceOf(c) case Nothing => 0 case Just(s) => Bit(s)
    ensures InStat(c) <==> SourceOf(c) == Just(Stat)
    ensures InStatFs(c) <==> SourceOf(c) == Just(StatFs)
    ensures c == 'p' <==> SourceOf(c) == Just(RealPath)
    ensures c == '=' <==> SourceOf(c) == Just(ReadLink)
  {
  }

  /** `checkprefixflags`, for the mask of `system_fileinfo`, which admits both flags. */
  method CheckPrefixFlags(mode: string) returns (k: nat, bits: Bits)
    ensures k == FlagCount(mode)
    ensures bits & SRCMASK == 0
    ensures bits & LSTAT != 0 <==> 'l' in mode[..k]
    ensures bits & NOYIELD != 0 <==> '~' in mode[..k]
  {
    k, bits := 0, 0;
    while k < |mode| && IsFlag(mode[k])
      invariant k <= |mode|
      invariant FlagCount(mode) == k + FlagCount(mode[k..])
      invariant bits & SRCMASK == 0
      invariant bits & LSTAT != 0 <==> 'l' in mode[..k]
      invariant bits & NOYIELD != 0 <==> '~' in mode[..k]
    {
      assert mode[..k + 1] == mode[..k] + [mode[k]];
      assert mode[k..][1..] == mode[k + 1..];
      if mode[k] == '~' {
        bits := bits | NOYIELD;
      } else {
        bits := bits | LSTAT;
      }
      k := k + 1;
    }
  }

  /** The source bits are those of the sources the characters want. */
  ghost predicate Needs(bits: Bits, mode: string) {
    forall s :: bits & Bit(s) != 0 <==> Wants(mode, s)
  }

  /** The same flags. */
  ghost predicate SameFlags(a: Bits, b: Bits) {
    a & LSTAT == b & LSTAT && a & NOYIELD == b & NOYIELD
  }

  /** The loop of `checkinfomode`: stops at the first character that asks for no value. */
  method SelectSources(flags: Bits, rest: string) returns (bits: Bits, at: nat)
    requires flags & SRCMASK == 0
    ensures at == Offender(rest)
    ensures SameFlags(bits, flags)
    ensures at == |rest| ==> Needs(bits, rest)
  {
    bits, at := flags, 0;
    NeedsNothing(bits, rest);
    while at < |rest|
      invariant at <= |rest|
      invariant Offender(rest) == at + Offender(rest[at..])
      invariant SameFlags(bits, flags)
      invariant Needs(bits, rest[..at])
    {
      var sel := ToInfoSrc(rest[at]);
      SwitchesAgree(rest[at]);
      if sel == 0 { return; }
      ghost var src := SourceOf(rest[at]).src;
      forall s ensures Wants(rest[..at + 1], s) <==> Wants(rest[..at], s) || s == src {
        WantsMore(rest, at, s);
      }
      NeedsAlso(bits, src, rest[..at], rest[..at + 1]);
      bits := bits | sel;
      assert rest[at..][1..] == rest[at + 1..];
      at := at + 1;
    }
    assert rest[..at] == rest;
  }

  /** `checkinfomode`: the flags and the needed sources, or the first character that does not fit. */
  method CheckInfoMode(mode: string) returns (k: nat, bits: Bits, at: nat)
    ensures k == FlagCount(mode) && at == Offender(mode[k..])
    ensures bits & LSTAT != 0 <==> 'l' in mode[..k]
    ensures bits & NOYIELD != 0 <==> '~' in mode[..k]
    ensures at == |mode[k..]| ==> Needs(bits, mode[k..])
  {
    var flags;
    k, flags := CheckPrefixFlags(mode);
    bits, at := SelectSources(flags, mode[k..]);
  }

  lemma NeedsNothing(bits: Bits, rest: string)
    requires bits & SRCMASK == 0
    ensures Needs(bits, rest[..0])
  {
    assert bits & STAT == 0 && bits & STATFS == 0 && bits & REALPATH == 0 && bits & READLINK == 0;
  }

  lemma WantsMore(rest: string, at: nat, s: Source)
    requires at < |rest|
    ensures Wants(rest[..at + 1], s) <==> Wants(rest[..at], s) || SourceOf(rest[at]) == Just(s)
  {
    if Wants(rest[..at], s) {
      var i :| 0 <= i < at && SourceOf(rest[..at][i]) == Just(s);
      assert rest[..at + 1][i] == rest[..at][i];
    }
    if Wants(rest[..at + 1], s) {
      var i :| 0 <= i <= at && SourceOf(rest[..at + 1][i]) == Just(s);
      assert i < at ==> rest[..at][i] == rest[..at + 1][i];
    }
    assert rest[..at + 1][at] == rest[at];
  }

  lemma NeedsAlso(bits: Bits, src: Source, was: string, now: string)
    requires Needs(bits, was)
    requires forall s :: Wants(now, s) <==> Wants(was, s) || s == src
    ensures Needs(bits | Bit(src), now)
    ensures SameFlags(bits | Bit(src), bits)
  {
    OrFlags(bits, src);
    forall s ensures (bits | Bit(src)) & Bit(s) != 0 <==> Wants(now, s) {
      OrOne(bits, src, s);
    }
  }

  lemma OrOne(bits: Bits, src: Source, s: Source)
    ensures (bits | Bit(src)) & Bit(s) != 0 <==> bits & Bit(s) != 0 || s == src
  {
    match src
    case Stat =>
    case StatFs =>
    case RealPath =>
    case ReadLink =>
  }

  lemma OrFlags(bits: Bits, src: Source)
    ensures SameFlags(bits | Bit(src), bits)
  {
    match src
    case Stat =>
    case StatFs =>
    case RealPath =>
    case ReadLink =>
  }

  /** `missinfosrc`. */
  function Missing(bits: Bits, src: Bits): Bits {
    (src << 6) | ((bits & !src) & BITMASK)
  }

  /** Asking a source clears its bit, keeps the others and the flags, and names it as the current one. */
  lemma MissingOne(bits: Bits, src: Source, s: Source)
    ensures Missing(bits, Bit(src)) & Bit(s) != 0 <==> bits & Bit(s) != 0 && s != src
    ensures Missing(bits, Bit(src)) >> 6 == Bit(src)
    ensures SameFlags(Missing(bits, Bit(src)), bits)
  {
    match src
    case Stat =>
    case StatFs =>
    case RealPath =>
    case ReadLink =>
  }

  /** `getinfosrc`: the source to be asked now, and what is left. */
  method GetInfoSrc(bits: Bits) returns (rest: Bits, src: Source, k: nat)
    requires bits & SRCMASK != 0
    ensures k < 4 && src == Nth(k) && bits & Bit(src) != 0
    ensures forall m: nat :: m < k ==> bits & Bit(Nth(m)) == 0
    ensures rest == Missing(bits, Bit(src))
  {
    if bits & STAT != 0 {
      k := 0;
    } else if bits & STATFS != 0 {
      k := 1;
    } else if bits & REALPATH != 0 {
      k := 2;
    } else {
      assert bits & READLINK != 0;
      k := 3;
    }
    src := Nth(k);
    rest := Missing(bits, Bit(src));
  }

  /** After the passes of the sources in `done`, and the first `n` characters of that of `src`. */
  ghost predicate Placed(vals: seq<Value>, base: seq<Value>, mode: string, lstat: bool, replies: Replies,
                         done: set<Source>, src: Source, n: nat) {
    && |base| <= |vals| <= |base| + |mode| && vals[..|base|] == base
    && forall i :: 0 <= i < |mode| && SourceOf(mode[i]).Just?
         && (SourceOf(mode[i]).src in done || (SourceOf(mode[i]).src == src && i < n))
         ==> |base| + i < |vals| && vals[|base| + i] == ValueOf(mode[i], lstat, replies)
  }

  /** Slot `at` has the value `v`, the slots before are as they were, and those behind too or are new. */
  ghost predicate SetAt(vals: seq<Value>, before: seq<Value>, at: nat, v: Value) {
    && |vals| == (if at < |before| then |before| else at + 1) && vals[at] == v
    && forall j :: 0 <= j < |before| && j != at ==> vals[j] == before[j]
  }

  lemma PlacedMore(vals: seq<Value>, before: seq<Value>, base: seq<Value>, mode: string, lstat: bool,
                   replies: Replies, done: set<Source>, src: Source, n: nat)
    requires n < |mode| && Placed(before, base, mode, lstat, replies, done, src, n)
    requires SetAt(vals, before, |base| + n, ValueOf(mode[n], lstat, replies))
    ensures Placed(vals, base, mode, lstat, replies, done, src, n + 1)
  {
    assert vals[..|base|] == before[..|base|];
    forall i | 0 <= i < |mode| && SourceOf(mode[i]).Just?
        && (SourceOf(mode[i]).src in done || (SourceOf(mode[i]).src == src && i < n + 1))
      ensures |base| + i < |vals| && vals[|base| + i] == ValueOf(mode[i], lstat, replies)
    {
      if i != n {
        assert |base| + i < |before| && before[|base| + i] == ValueOf(mode[i], lstat, replies);
      }
    }
  }

  lemma PlacedSame(vals: seq<Value>, base: seq<Value>, mode: string, lstat: bool,
                   replies: Replies, done: set<Source>, src: Source, n: nat)
    requires n < |mode| && Placed(vals, base, mode, lstat, replies, done, src, n) && SourceOf(mode[n]) != Just(src)
    ensures Placed(vals, base, mode, lstat, replies, done, src, n + 1)
  {
  }

  class InfoStack {
    var vals: seq<Value>

    constructor (v: seq<Value>)
      ensures vals == v
    {
      vals := v;
    }

    /** `placeat`: the top value goes to slot `idx`, counted from 1. */
    method PlaceAt(idx: nat)
      requires vals != [] && 1 <= idx
      modifies this
      ensures idx < |old(vals)| ==> vals == old(vals)[..|old(vals)| - 1][idx - 1 := old(vals)[|old(vals)| - 1]]
      ensures idx >= |old(vals)| ==> |vals| == idx && old(vals) <= vals
      ensures idx >= |old(vals)| ==> vals[idx - 1] == old(vals)[|old(vals)| - 1]
    {
      var top := |vals|;
      if idx < top {
        vals := vals[..top - 1][idx - 1 := vals[top - 1]];
      } else if idx > top {
        vals := vals + seq(idx - 1 - top, _ => Nil);
        vals := vals + [vals[top - 1]];
      }
    }

    /** What `pushfileinfo` pushes for one character, if it is one of the current source. */
    method PushAnswer(bits: Bits, c: char, replies: Replies, ghost src: Source) returns (pushed: bool)
      requires bits >> 6 == Bit(src)
      modifies this
      ensures pushed <==> SourceOf(c) == Just(src)
      ensures vals == old(vals) + (if pushed then [ValueOf(c, bits & LSTAT != 0, replies)] else [])
    {
      SwitchesAgree(c);
      BitsDiffer(src);
      pushed := false;
      if bits >> 6 == READLINK {
        if c == '=' {
          vals := vals + [if replies.readlink == Fails(EINVAL) then Nil else Data(ReadLink, false, c)];
          pushed := true;
        }
      } else if bits >> 6 == REALPATH {
        if c == 'p' {
          vals := vals + [Data(RealPath, false, c)];
          pushed := true;
        }
      } else if bits >> 6 == STATFS {
        if InStatFs(c) {
          vals := vals + [Data(StatFs, false, c)];
          pushed := true;
        }
      } else if InStat(c) {
        vals := vals + [Data(Stat, bits & LSTAT != 0, c)];
        pushed := true;
      }
    }

    /** `pushfileinfo`: one pass over the mode string, for the source named in `bits`. */
    method PushFileInfo(base: nat, bits: Bits, mode: string, replies: Replies,
                        ghost kept: seq<Value>, ghost done: set<Source>, ghost src: Source)
      requires base == |kept| && bits >> 6 == Bit(src)
      requires Placed(vals, kept, mode, bits & LSTAT != 0, replies, done, src, 0)
      modifies this
      ensures Placed(vals, kept, mode, bits & LSTAT != 0, replies, done + {src}, src, |mode|)
    {
      ghost var lstat := bits & LSTAT != 0;
      var i := 0;
      while i < |mode|
        invariant 0 <= i <= |mode|
        invariant Placed(vals, kept, mode, lstat, replies, done, src, i)
      {
        ghost var before := vals;
        var pushed := PushAnswer(bits, mode[i], replies, src);
        if pushed {
          PlaceAt(base + i + 1);
          assert SetAt(vals, before, base + i, ValueOf(mode[i], lstat, replies));
          PlacedMore(vals, before, kept, mode, lstat, replies, done, src, i);
        } else {
          PlacedSame(vals, kept, mode, lstat, replies, done, src, i);
        }
        i := i + 1;
      }
    }

    /** The state of the call after the `k`-th source answered: the bits in slot 3, and one pass over the mode. */
    method Answered(base: nat, bits: Bits, mode: string, replies: Replies, async: bool,
                    ghost under: seq<Value>, ghost j: nat, ghost k: nat, ghost lstat: bool)
      returns (ghost under': seq<Value>)
      requires base == |under| && (async ==> base == 4) && j <= k < 4
      requires bits >> 6 == Bit(Nth(k)) && lstat == (bits & LSTAT != 0)
      requires forall m: nat :: j <= m < k ==> !Wants(mode, Nth(m))
      requires Placed(vals, under, mode, lstat, replies, Before(j), Stat, 0)
      modifies this
      ensures under' == if async then under[2 := State(bits)] else under
      ensures Placed(vals, under', mode, lstat, replies, Before(k + 1), Stat, 0)
    {
      under' := under;
      if async {
        vals := vals[2 := State(bits)];
        under' := under[2 := State(bits)];
      }
      ghost var src := Nth(k);
      BeforeLess(mode, j, k);
      PlacedSkip(vals, under', mode, lstat, replies, Before(j), Before(k), Stat, src, 0);
      PushFileInfo(base, bits, mode, replies, under', Before(k), src);
      BeforeNext(k);
      PlacedSkip(vals, under', mode, lstat, replies, Before(k) + {src}, Before(k + 1), src, Stat, |mode|);
    }

    /** One turn of the loop: choose a source, ask it, and place its values unless it failed. */
    method Round(base: nat, bits: Bits, rest: string, replies: Replies, async: bool, ghost under: seq<Value>,
                 ghost kept: seq<Value>, ghost start: Bits, ghost j: nat)
      returns (bits': Bits, failed: Maybe, src: Source, ghost under': seq<Value>, ghost j': nat)
      requires base == |kept| && bits & SRCMASK != 0
      requires Going(vals, under, kept, bits, start, rest, replies, async, j)
      modifies this
      ensures SameFlags(bits', start) && j < j' <= 4
      ensures failed != Nothing ==> FirstFailure(rest, replies, j) == failed && Queries(rest, replies, j) == [src]
      ensures failed == Nothing ==>
                && Going(vals, under', kept, bits', start, rest, replies, async, j')
                && FirstFailure(rest, replies, j) == FirstFailure(rest, replies, j')
                && Queries(rest, replies, j) == [src] + Queries(rest, replies, j')
    {
      failed, under' := Nothing, under;
      var k;
      bits', src, k := Choose(if async then vals[2].bits else bits, rest, replies, j);
      j' := k + 1;
      if replies.Of(src).Fails? && !(src == ReadLink && replies.Of(src).code == EINVAL) {
        failed := Just(src);
      } else {
        under' := Answered(base, bits', rest, replies, async, under, j, k, start & LSTAT != 0);
      }
    }
  }

  lemma BitsDiffer(src: Source)
    ensures Bit(src) == READLINK <==> src == ReadLink
    ensures Bit(src) == REALPATH <==> src == RealPath
    ensures Bit(src) == STATFS <==> src == StatFs
    ensures Bit(src) == STAT <==> src == Stat
  {
  }

  // ---------------------------------------------------------------- the whole call

  /** Before stage `k`: the sources asked are those wanted among the first `k`, and the bits say so. */
  ghost predicate Stage(bits: Bits, rest: string, k: nat) {
    k <= 4 && forall m: nat :: m < 4 ==> (bits & Bit(Nth(m)) != 0 <==> k <= m && Wants(rest, Nth(m)))
  }

  /** Sources before the `k`-th. */
  function Before(k: nat): set<Source> {
    (if k > 0 then {Stat} else {}) + (if k > 1 then {StatFs} else {})
    + (if k > 2 then {RealPath} else {}) + (if k > 3 then {ReadLink} else {})
  }

  lemma BeforeNext(k: nat)
    requires k < 4
    ensures Before(k + 1) == Before(k) + {Nth(k)}
  {
  }

  lemma BeforeLess(rest: string, j: nat, k: nat)
    requires j <= k <= 4 && forall m: nat :: j <= m < k ==> !Wants(rest, Nth(m))
    ensures forall s :: s in Before(k) ==> s in Before(j) || !Wants(rest, s)
    decreases k
  {
    if j < k {
      BeforeLess(rest, j, k - 1);
      BeforeNext(k - 1);
    }
  }

  /** The slots below the values: in asynchronous mode the third holds the bits. */
  ghost predicate Base(under: seq<Value>, kept: seq<Value>, bits: Bits, async: bool) {
    && |under| == |kept| && 2 <= |kept| && under[..2] == kept[..2]
    && (async ==> |kept| == 4 && under[2] == State(bits))
  }

  /** Sources not wanted make no difference to what the rest of the order does. */
  lemma SkipUnwanted(rest: string, replies: Replies, j: nat, k: nat)
    requires j <= k <= 4
    requires forall m: nat :: j <= m < k ==> !Wants(rest, Nth(m))
    ensures FirstFailure(rest, replies, j) == FirstFailure(rest, replies, k)
    ensures Queries(rest, replies, j) == Queries(rest, replies, k)
    decreases k - j
  {
    if j < k {
      SkipUnwanted(rest, replies, j + 1, k);
    }
  }

  /** Nor do they to the slots filled. */
  lemma PlacedSkip(vals: seq<Value>, base: seq<Value>, rest: string, lstat: bool, replies: Replies, done: set<Source>,
                   done': set<Source>, src: Source, src': Source, n: nat)
    requires Placed(vals, base, rest, lstat, replies, done, src, n)
    requires n == 0 || src in done
    requires forall s :: s in done' ==> s in done || !Wants(rest, s)
    ensures Placed(vals, base, rest, lstat, replies, done', src', 0)
  {
    forall i | 0 <= i < |rest| && SourceOf(rest[i]).Just? && SourceOf(rest[i]).src in done'
      ensures SourceOf(rest[i]).src in done
    {
      assert Wants(rest, SourceOf(rest[i]).src);
    }
  }

  /** The values of one pass, slot by slot. */
  ghost predicate Filled(vals: seq<Value>, base: nat, rest: string, lstat: bool, replies: Replies) {
    |vals| == base + |rest| && forall i :: 0 <= i < |rest| ==> vals[base + i] == ValueOf(rest[i], lstat, replies)
  }

  lemma AllBefore(s: Source)
    ensures s in Before(4)
  {
  }

  /** With every wanted source done, the slots hold exactly the one-pass values. */
  lemma AllPlaced(vals: seq<Value>, base: seq<Value>, rest: string, lstat: bool, replies: Replies, src: Source)
    requires forall i :: 0 <= i < |rest| ==> SourceOf(rest[i]).Just?
    requires Placed(vals, base, rest, lstat, replies, Before(4), src, 0)
    ensures Filled(vals, |base|, rest, lstat, replies)
  {
    forall i | 0 <= i < |rest|
      ensures |base| + i < |vals| && vals[|base| + i] == ValueOf(rest[i], lstat, replies)
    {
      AllBefore(SourceOf(rest[i]).src);
    }
    if |rest| > 0 {
      var last := rest[|rest| - 1];
      assert SourceOf(last).Just?;
      assert |base| + (|rest| - 1) < |vals|;
    }
  }

  lemma FilledWhole(vals: seq<Value>, base: nat, rest: string, lstat: bool, replies: Replies)
    requires Filled(vals, base, rest, lstat, replies)
    ensures vals[base..] == seq(|rest|, j requires 0 <= j < |rest| => ValueOf(rest[j], lstat, replies))
  {
  }

  lemma {:induction false} AllHaveSources(rest: string)
    requires Offender(rest) == |rest|
    ensures forall i :: 0 <= i < |rest| ==> SourceOf(rest[i]).Just?
  {
    if rest == "" {
    } else {
      AllHaveSources(rest[1..]);
      forall i | 0 <= i < |rest| ensures SourceOf(rest[i]).Just? {
        assert i > 0 ==> rest[i] == rest[1..][i - 1];
      }
    }
  }

  lemma StageNext(bits: Bits, rest: string, j: nat, k: nat)
    requires Stage(bits, rest, j) && k < 4 && bits & Bit(Nth(k)) != 0
    requires forall m: nat :: m < k ==> bits & Bit(Nth(m)) == 0
    ensures j <= k && Wants(rest, Nth(k)) && Stage(Missing(bits, Bit(Nth(k))), rest, k + 1)
    ensures forall m: nat :: j <= m < k ==> !Wants(rest, Nth(m))
  {
    assert j <= k;
    forall m: nat | m < 4
      ensures Missing(bits, Bit(Nth(k))) & Bit(Nth(m)) != 0 <==> k + 1 <= m && Wants(rest, Nth(m))
    {
      MissingOne(bits, Nth(k), Nth(m));
      NthRank(m);
      NthRank(k);
      assert bits & Bit(Nth(m)) != 0 <==> j <= m && Wants(rest, Nth(m));
    }
  }

  lemma StageEnd(bits: Bits, rest: string, j: nat)
    requires Stage(bits, rest, j) && bits & SRCMASK == 0
    ensures forall m: nat :: j <= m < 4 ==> !Wants(rest, Nth(m))
  {
    forall m: nat | m < 4 ensures bits & Bit(Nth(m)) == 0 {
    }
  }

  /** `getinfosrc` without the request: the next source, and the bits that name it. */
  method Choose(bits: Bits, ghost rest: string, ghost replies: Replies, ghost j: nat)
    returns (left: Bits, src: Source, k: nat)
    requires Stage(bits, rest, j) && bits & SRCMASK != 0
    ensures j <= k < 4 && src == Nth(k) && Stage(left, rest, k + 1)
    ensures left >> 6 == Bit(src) && SameFlags(left, bits)
    ensures forall m: nat :: j <= m < k ==> !Wants(rest, Nth(m))
    ensures Bad(replies.Of(src), src) ==>
              FirstFailure(rest, replies, j) == Just(src) && Queries(rest, replies, j) == [src]
    ensures !Bad(replies.Of(src), src) ==>
              && FirstFailure(rest, replies, j) == FirstFailure(rest, replies, k + 1)
              && Queries(rest, replies, j) == [src] + Queries(rest, replies, k + 1)
  {
    left, src, k := GetInfoSrc(bits);
    Chosen(bits, rest, replies, j, k);
  }

  /** What holds before each turn of the loop. */
  ghost predicate Going(vals: seq<Value>, under: seq<Value>, kept: seq<Value>, bits: Bits, start: Bits, rest: string,
                        replies: Replies, async: bool, j: nat) {
    && Stage(bits, rest, j) && SameFlags(bits, start) && Base(under, kept, bits, async)
    && Placed(vals, under, rest, start & LSTAT != 0, replies, Before(j), Stat, 0)
  }

  lemma GoingStart(kept: seq<Value>, start: Bits, rest: string, replies: Replies, async: bool)
    requires Needs(start, rest)
    requires if async then |kept| == 4 && kept[2] == State(start) else |kept| == 2
    ensures Going(kept, kept, kept, start, start, rest, replies, async, 0)
  {
  }

  /** Taking the first source that is left moves on to its stage. */
  lemma Chosen(bits: Bits, rest: string, replies: Replies, j: nat, k: nat)
    requires Stage(bits, rest, j) && k < 4 && bits & Bit(Nth(k)) != 0
    requires forall m: nat :: m < k ==> bits & Bit(Nth(m)) == 0
    ensures j <= k && Stage(Missing(bits, Bit(Nth(k))), rest, k + 1)
    ensures Missing(bits, Bit(Nth(k))) >> 6 == Bit(Nth(k)) && SameFlags(Missing(bits, Bit(Nth(k))), bits)
    ensures forall m: nat :: j <= m < k ==> !Wants(rest, Nth(m))
    ensures Bad(replies.Of(Nth(k)), Nth(k)) ==>
              FirstFailure(rest, replies, j) == Just(Nth(k)) && Queries(rest, replies, j) == [Nth(k)]
    ensures !Bad(replies.Of(Nth(k)), Nth(k)) ==>
              && FirstFailure(rest, replies, j) == FirstFailure(rest, replies, k + 1)
              && Queries(rest, replies, j) == [Nth(k)] + Queries(rest, replies, k + 1)
  {
    StageNext(bits, rest, j, k);
    SkipUnwanted(rest, replies, j, k);
    MissingOne(bits, Nth(k), Nth(k));
  }

  /** With no source left every slot is filled. */
  lemma AllDone(vals: seq<Value>, base: seq<Value>, bits: Bits, rest: string, lstat: bool, replies: Replies, j: nat)
    requires Offender(rest) == |rest| && Stage(bits, rest, j) && bits & SRCMASK == 0
    requires Placed(vals, base, rest, lstat, replies, Before(j), Stat, 0)
    ensures FirstFailure(rest, replies, j) == Nothing && Queries(rest, replies, j) == []
    ensures |vals| == |base| + |rest| && vals[..|base|] == base
    ensures vals[|base|..] == seq(|rest|, i requires 0 <= i < |rest| => ValueOf(rest[i], lstat, replies))
  {
    StageEnd(bits, rest, j);
    SkipUnwanted(rest, replies, j, 4);
    BeforeLess(rest, j, 4);
    PlacedSkip(vals, base, rest, lstat, replies, Before(j), Before(4), Stat, Stat, 0);
    AllHaveSources(rest);
    AllPlaced(vals, base, rest, lstat, replies, Stat);
    FilledWhole(vals, |base|, rest, lstat, replies);
  }

  lemma GoingEnd(vals: seq<Value>, under: seq<Value>, kept: seq<Value>, bits: Bits, start: Bits, rest: string,
                 replies: Replies, async: bool, j: nat)
    requires Offender(rest) == |rest| && bits & SRCMASK == 0
    requires Going(vals, under, kept, bits, start, rest, replies, async, j)
    ensures FirstFailure(rest, replies, j) == Nothing && Queries(rest, replies, j) == []
    ensures SameFlags(bits, start)
    ensures |vals| == |kept| + |rest| && vals[..2] == kept[..2]
    ensures vals[|kept|..] == seq(|rest|, i requires 0 <= i < |rest| => ValueOf(rest[i], start & LSTAT != 0, replies))
  {
    AllDone(vals, under, bits, rest, start & LSTAT != 0, replies, j);
    assert vals[..2] == vals[..|under|][..2];
  }

  /** The queries made and those still to come. */
  ghost function Followed(asked: seq<Source>, rest: string, replies: Replies, j: nat): seq<Source>
    requires j <= 4
  {
    asked + Queries(rest, replies, j)
  }

  lemma AskedAlso(rest: string, replies: Replies, asked: seq<Source>, src: Source, i: nat, j: nat)
    requires i <= 4 && j <= 4
    ensures Queries(rest, replies, i) == [src] ==> Followed(asked, rest, replies, i) == asked + [src]
    ensures Queries(rest, replies, i) == [src] + Queries(rest, replies, j) ==>
              Followed(asked, rest, replies, i) == Followed(asked + [src], rest, replies, j)
  {
    assert asked + ([src] + Queries(rest, replies, j)) == asked + [src] + Queries(rest, replies, j);
  }

  /**
   The loop of the call: of `system_fileinfo` itself in blocking mode, where `kept` is the two
   arguments; and of `yieldfileinfo` and `returnfileinfo`, which keep the bits in the third slot of the
   stack and go round once per callback, with four slots kept.  `asked` records the queries.
   */
  method SourceLoop(kept: seq<Value>, start: Bits, rest: string, replies: Replies, async: bool)
    returns (stack: InfoStack, failed: Maybe, ghost asked: seq<Source>, bits: Bits)
    requires Offender(rest) == |rest| && Needs(start, rest)
    requires if async then |kept| == 4 && kept[2] == State(start) else |kept| == 2
    ensures fresh(stack)
    ensures asked == Queries(rest, replies, 0)
    ensures failed == FirstFailure(rest, replies, 0)
    ensures SameFlags(bits, start)
    ensures failed == Nothing ==>
              && |stack.vals| == |kept| + |rest|
              && stack.vals[..2] == kept[..2]
              && stack.vals[|kept|..] == seq(|rest|, j requires 0 <= j < |rest| => ValueOf(rest[j], start & LSTAT != 0, replies))
  {
    stack := new InfoStack(kept);
    bits, asked, failed := start, [], Nothing;
    ghost var j, under := 0, kept;
    GoingStart(kept, start, rest, replies, async);
    while bits & SRCMASK != 0
      invariant Going(stack.vals, under, kept, bits, start, rest, replies, async, j)
      invariant failed == Nothing && FirstFailure(rest, replies, 0) == FirstFailure(rest, replies, j)
      invariant Queries(rest, replies, 0) == Followed(asked, rest, replies, j)
      decreases 4 - j
    {
      ghost var i := j;
      var src;
      bits, failed, src, under, j := stack.Round(|kept|, bits, rest, replies, async, under, kept, start, j);
      AskedAlso(rest, replies, asked, src, i, j);
      asked := asked + [src];
      if failed != Nothing {
        return;
      }
    }
    GoingEnd(stack.vals, under, kept, bits, start, rest, replies, async, j);
  }

  /** `system.fileinfo`, in blocking mode or not, answers what one pass over the mode string would; it
      asks each source it needs once, in order, and no source after one that failed. */
  method SystemFileInfo(mode: string, replies: Replies) returns (r: Outcome, ghost asked: seq<Source>)
    ensures r == OnePass(mode, replies)
    // slot i: nil for a path that is no link, and otherwise what the source of character i answers for it
    ensures r.Values? ==>
              && |r.vals| == |mode| - FlagCount(mode)
              && forall i :: 0 <= i < |r.vals| ==>
                   var c := mode[FlagCount(mode) + i];
                   && SourceOf(c).Just?
                   && (r.vals[i] == Nil <==> c == '=' && replies.readlink == Fails(-22))
                   && (r.vals[i] != Nil ==>
                         r.vals[i] == Data(SourceOf(c).src, SourceOf(c).src == Stat && 'l' in mode[..FlagCount(mode)], c))
    ensures r.Values? || r.QueryFailed? ==> asked == Queries(mode[FlagCount(mode)..], replies, 0)
    ensures r.BadPosition? || r.UnknownChar? ==> asked == []
  {
    r, asked := InfoCall(mode, replies);
    SlotsMean(mode, replies);
  }

  method InfoCall(mode: string, replies: Replies) returns (r: Outcome, ghost asked: seq<Source>)
    ensures r == OnePass(mode, replies)
    ensures r.Values? || r.QueryFailed? ==> asked == Queries(mode[FlagCount(mode)..], replies, 0)
    ensures r.BadPosition? || r.UnknownChar? ==> asked == []
  {
    asked := [];
    var k, bits, at := CheckInfoMode(mode);
    var rest := mode[k..];
    if at < |rest| {
      return if IsFlag(rest[at]) then BadPosition(rest[at]) else UnknownChar(rest[at]), [];
    }
    var async := bits & NOYIELD == 0;
    var kept := if async then [Arg(1), Arg(2), State(bits), Arg(4)] else [Arg(1), Arg(2)];
    var stack, failed;
    stack, failed, asked, bits := SourceLoop(kept, bits, rest, replies, async);
    match failed
    case Just(s) => r := QueryFailed(s, replies.Of(s));
    case Nothing => r := Values(stack.vals[|kept|..]);
  }
}
