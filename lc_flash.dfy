/*
 * A model of LightCrafterFlash (LightCrafter/LC_Flash.cpp): it turns a
 * '-'-separated list of flash image indices (or "all") into the image LUT
 * of a DLPC350 projector and then issues a fixed, ordered list of DLPC350
 * commands, giving up with -1 at the first command that fails.
 *
 * The vendor calls are not modelled: each becomes a Command value, the
 * commands issued are returned as a trace, and reply(k) is the return code
 * of the k-th command issued. The USB connection state and the number of
 * images in flash are inputs.
 */
module LcFlash {
  import opened Dlpc350Common

  // ---------------------------------------------------------------------------
  // The sequence argument.

  /** '0'..'9'. */
  predicate IsDigit(c: char)
  {
    0x30 <= c as int <= 0x39
  }

  /** A non-empty string of decimal digits. */
  predicate IsDecimal(s: string)
  {
    |s| > 0 && forall i | 0 <= i < |s| :: IsDigit(s[i])
  }

  /** The value of a string of decimal digits, as stoul(s, 0, 10) and stoi(s) read it. */
  function DecimalValue(s: string): nat
    requires forall i | 0 <= i < |s| :: IsDigit(s[i])
  {
    if s == [] then 0
    else
      var last := s[|s| - 1];
      assert IsDigit(last);
      10 * DecimalValue(s[..|s| - 1]) + (last as int - 0x30)
  }

  /** The position of the first '-' in s, or |s| when there is none. */
  function DashIndex(s: string): (k: nat)
    ensures k <= |s|
    ensures forall i | 0 <= i < k :: s[i] != '-'
    ensures k < |s| ==> s[k] == '-'
  {
    if s == [] || s[0] == '-' then 0 else 1 + DashIndex(s[1..])
  }

  /**
   * The strings getline(stream, token, '-') reads from s one after another:
   * the pieces between dashes, where the piece after a final dash is empty
   * and is not read.
   */
  function GetlineTokens(s: string): (tokens: seq<string>)
    ensures s == [] <==> tokens == []
    ensures |tokens| <= |s|
    decreases |s|
  {
    if s == [] then []
    else
      var k := DashIndex(s);
      if k == |s| then [s] else [s[..k]] + GetlineTokens(s[k + 1..])
  }

  /** The pieces put back together, one '-' between neighbours. */
  function JoinDashes(tokens: seq<string>): string
  {
    if tokens == [] then ""
    else if |tokens| == 1 then tokens[0]
    else tokens[0] + "-" + JoinDashes(tokens[1..])
  }

  function CountDashes(s: string): nat
  {
    if s == [] then 0 else (if s[0] == '-' then 1 else 0) + CountDashes(s[1..])
  }

  /** No token holds a dash. */
  lemma {:induction false} GetlineTokensHaveNoDash(s: string)
    ensures forall t | t in GetlineTokens(s) :: '-' !in t
    decreases |s|
  {
    if s != [] {
      var k := DashIndex(s);
      assert '-' !in s[..k] by {
        forall i | 0 <= i < k ensures s[..k][i] != '-' { }
      }
      if k < |s| {
        GetlineTokensHaveNoDash(s[k + 1..]);
      }
    }
  }

  /** s around a dash at k. */
  lemma SplitAtDash(s: string, k: nat)
    requires k < |s| && s[k] == '-'
    ensures s == s[..k] + "-" + s[k + 1..]
  {
    assert s == s[..k] + s[k..];
    assert s[k..] == [s[k]] + s[k + 1..];
  }

  lemma DropLastAfterDash(head: string, rest: string)
    ensures rest == [] ==> (head + "-")[..|head|] == head
    ensures rest != [] ==> (head + "-" + rest)[..|head| + |rest|] == head + "-" + rest[..|rest| - 1]
  {
  }

  lemma JoinDashesCons(token: string, tokens: seq<string>)
    requires tokens != []
    ensures JoinDashes([token] + tokens) == token + "-" + JoinDashes(tokens)
  {
    assert ([token] + tokens)[1..] == tokens;
  }

  /**
   * Joined with dashes, the tokens give s back: s itself, or s without its
   * last character when that is a dash.
   */
  lemma {:induction false} GetlineTokensRejoin(s: string)
    ensures JoinDashes(GetlineTokens(s)) == if s != [] && s[|s| - 1] == '-' then s[..|s| - 1] else s
    decreases |s|
  {
    if s != [] && DashIndex(s) < |s| {
      var k := DashIndex(s);
      var head := s[..k];
      var rest := s[k + 1..];
      SplitAtDash(s, k);
      assert GetlineTokens(s) == [head] + GetlineTokens(rest);
      GetlineTokensRejoin(rest);
      JoinAfterDash(head, rest, GetlineTokens(rest));
    }
  }

  /** The rejoining step: one more token in front, after which the rest rejoins. */
  lemma JoinAfterDash(head: string, rest: string, tail: seq<string>)
    requires (tail == []) == (rest == [])
    requires JoinDashes(tail) == if rest != [] && rest[|rest| - 1] == '-' then rest[..|rest| - 1] else rest
    ensures var s := head + "-" + rest;
      JoinDashes([head] + tail) == if s[|s| - 1] == '-' then s[..|s| - 1] else s
  {
    DropLastAfterDash(head, rest);
    if rest == [] {
      assert [head] + tail == [head];
    } else {
      JoinDashesCons(head, tail);
      assert (head + "-" + rest)[|head| + |rest|] == rest[|rest| - 1];
    }
  }

  /**
   * A non-empty s that does not end with a dash splits into one token more
   * than it has dashes, so "0-1-2" gives three.
   */
  lemma {:induction false} GetlineTokensCount(s: string)
    requires s != [] && s[|s| - 1] != '-'
    ensures |GetlineTokens(s)| == CountDashes(s) + 1
    decreases |s|
  {
    var k := DashIndex(s);
    DashesBefore(s, k);
    if k < |s| {
      GetlineTokensCount(s[k + 1..]);
    }
  }

  /** Up to the first dash at k, s holds no dash, and from k on it holds the rest. */
  lemma {:induction false} DashesBefore(s: string, k: nat)
    requires k == DashIndex(s)
    ensures k == |s| ==> CountDashes(s) == 0
    ensures k < |s| ==> CountDashes(s) == 1 + CountDashes(s[k + 1..])
    decreases |s|
  {
    if s != [] && s[0] != '-' {
      DashesBefore(s[1..], k - 1);
      if k < |s| {
        assert s[1..][k..] == s[k + 1..];
      }
    }
  }

  // ---------------------------------------------------------------------------
  // Building splashLut.

  const SplashLutSize := 64

  /** C's unsigned char, the element type of splashLut. */
  type uchar = b: int | 0 <= b < 256

  /** NumImgInFlash - 1 in unsigned int arithmetic: 0 - 1 wraps to UINT_MAX. */
  function IndexBound(numImgInFlash: unsigned): unsigned
  {
    (numImgInFlash + 0xFFFF_FFFF) % 0x1_0000_0000
  }

  datatype ParseOutcome = IndexError | Parsed(lut: seq<uchar>)

  /** What unsigned char splashLut[k] = stoi(token) stores: the value modulo 256. */
  function LutByte(value: nat): uchar
  {
    value % 256
  }

  /**
   * What the token loop needs to run without an exception or a write past
   * splashLut: each token it reads is a decimal string within unsigned
   * long (32 bits on the target), and each token it stores is below 2^31
   * for stoi and finds one of the 64 entries free.
   */
  predicate TokensDefined(tokens: seq<string>, bound: unsigned, stored: nat)
  {
    tokens == [] ||
    (IsDecimal(tokens[0]) && DecimalValue(tokens[0]) < 0x1_0000_0000 &&
     (bound < DecimalValue(tokens[0]) ||
      (DecimalValue(tokens[0]) < 0x8000_0000 && stored < SplashLutSize &&
       TokensDefined(tokens[1..], bound, stored + 1))))
  }

  /**
   * The token loop: the LUT entries of the tokens in order, or IndexError
   * at the first token whose value exceeds the bound.
   */
  function ParseTokens(tokens: seq<string>, bound: unsigned, stored: nat): (r: ParseOutcome)
    requires TokensDefined(tokens, bound, stored)
    ensures r.Parsed? ==> |r.lut| == |tokens|
  {
    if tokens == [] then Parsed([])
    else if bound < DecimalValue(tokens[0]) then IndexError
    else Prepend([LutByte(DecimalValue(tokens[0]))], ParseTokens(tokens[1..], bound, stored + 1))
  }

  function Prepend(prefix: seq<uchar>, outcome: ParseOutcome): ParseOutcome
  {
    match outcome
    case IndexError => IndexError
    case Parsed(lut) => Parsed(prefix + lut)
  }

  /**
   * The token loop fails exactly when some token is out of range; otherwise
   * it stores every token, in order, and no more than fit.
   */
  lemma {:induction false} ParseTokensMeaning(tokens: seq<string>, bound: unsigned, stored: nat)
    requires TokensDefined(tokens, bound, stored)
    ensures ParseTokens(tokens, bound, stored).Parsed? <==>
      forall k | 0 <= k < |tokens| :: IsDecimal(tokens[k]) && DecimalValue(tokens[k]) <= bound
    ensures ParseTokens(tokens, bound, stored).Parsed? ==>
      var lut := ParseTokens(tokens, bound, stored).lut;
      |lut| == |tokens| && (tokens != [] ==> stored + |tokens| <= SplashLutSize) &&
      forall k | 0 <= k < |tokens| :: lut[k] == LutByte(DecimalValue(tokens[k]))
    decreases |tokens|
  {
    if tokens != [] && bound >= DecimalValue(tokens[0]) {
      var rest := tokens[1..];
      ParseTokensMeaning(rest, bound, stored + 1);
      if ParseTokens(rest, bound, stored + 1).IndexError? {
        var k :| 0 <= k < |rest| && !(IsDecimal(rest[k]) && DecimalValue(rest[k]) <= bound);
        assert rest[k] == tokens[k + 1];
      } else {
        forall k | 0 <= k < |tokens|
          ensures IsDecimal(tokens[k]) && DecimalValue(tokens[k]) <= bound
        {
          if k > 0 {
            assert tokens[k] == rest[k - 1];
          }
        }
      }
    }
  }

  /** LUT entry i of "all": image i of flash. */
  function AllImages(count: nat): seq<uchar>
  {
    seq(count, i requires 0 <= i < count => LutByte(i))
  }

  /**
   * What LightCrafterFlash needs of its sequence argument: "all" with at
   * most 64 images in flash, or a token list the loop can read.
   */
  predicate SequenceDefined(sequence: string, numImgInFlash: unsigned)
  {
    if sequence == "all" then numImgInFlash <= SplashLutSize
    else TokensDefined(GetlineTokens(sequence), IndexBound(numImgInFlash), 0)
  }

  /** The image LUT LightCrafterFlash builds from its sequence argument. */
  function ImageLut(sequence: string, numImgInFlash: unsigned): ParseOutcome
    requires SequenceDefined(sequence, numImgInFlash)
  {
    if sequence == "all" then Parsed(AllImages(numImgInFlash))
    else ParseTokens(GetlineTokens(sequence), IndexBound(numImgInFlash), 0)
  }

  /** "all" lists every image in flash, in order. */
  lemma AllListsEveryImage(numImgInFlash: unsigned)
    requires numImgInFlash <= SplashLutSize
    ensures ImageLut("all", numImgInFlash).Parsed?
    ensures var lut := ImageLut("all", numImgInFlash).lut;
      |lut| == numImgInFlash && forall i | 0 <= i < |lut| :: lut[i] == i
  {
  }

  /**
   * With no image in flash, NumImgInFlash - 1 wraps to UINT_MAX and no
   * index is rejected.
   */
  lemma {:induction false} NoImagesRejectsNoIndex(tokens: seq<string>, stored: nat)
    requires TokensDefined(tokens, IndexBound(0), stored)
    ensures ParseTokens(tokens, IndexBound(0), stored).Parsed?
    decreases |tokens|
  {
    assert IndexBound(0) == 0xFFFF_FFFF;
    if tokens != [] {
      NoImagesRejectsNoIndex(tokens[1..], stored + 1);
    }
  }

  // ---------------------------------------------------------------------------
  // The DLPC350 commands.

  datatype Command =
    | SetMode(patternMode: bool)
    | PatternDisplay(action: int)
    | ClearPatLut
    | AddToPatLut(trigType: int, patNum: int, bitDepth: int, ledSelect: int,
                  invertPat: bool, insertBlack: bool, bufSwap: bool, trigOutPrev: bool)
    | SetPatternDisplayMode(external: bool)
    | SetPatternConfig(numLutEntries: int, repeat: int, numPatsForTrigOut2: int, numImages: int)
    | SetExposureFramePeriod(exposurePeriod: int, framePeriod: int)
    | SetPatternTriggerMode(trigMode: int)
    | SendPatLut
    | SendImageLut(lut: seq<uchar>, numImages: int)
    | ValidatePatLutData

  /** The settings LightCrafterFlash uses. */
  const PatternMode := true
  const Stop := 0
  const Start := 2
  const TrigType := 0
  const BitDepth := 8
  const BitplaneGroups := 1
  const PatNum: seq<int> := [0, 1, 2]
  const LedSelect := 7
  const InvertPat := false
  const InsertBlack := false
  const BufSwap := false
  const TrigOutPrev := false
  const External := false
  const TrigMode := 1

  /** The pattern LUT entry for bitplane group j; only group 0 swaps buffers. */
  function LutEntry(j: nat): Command
    requires j < |PatNum|
  {
    AddToPatLut(TrigType, PatNum[j], BitDepth, LedSelect, InvertPat, InsertBlack,
                if j == 0 then !BufSwap else BufSwap, TrigOutPrev)
  }

  /** One entry per bitplane group of every image, images in order. */
  function LutEntries(numImages: nat): seq<Command>
  {
    seq(numImages * BitplaneGroups, k requires 0 <= k < numImages * BitplaneGroups => LutEntry(k % BitplaneGroups))
  }

  /** 1 when the sequence repeats, otherwise the number of LUT entries. */
  function NumPatsForTrigOut2(numImages: nat, repeat: int): int
  {
    if repeat != 0 then 1 else numImages * BitplaneGroups
  }

  /** Every command LightCrafterFlash issues when all of them succeed, in order. */
  function Plan(lut: seq<uchar>, exposurePeriod: int, framePeriod: int, repeat: int): seq<Command>
  {
    var n := |lut|;
    [SetMode(PatternMode), PatternDisplay(Stop), ClearPatLut] +
    LutEntries(n) +
    [SetPatternDisplayMode(External),
     SetPatternConfig(n * BitplaneGroups, repeat, NumPatsForTrigOut2(n, repeat), n),
     SetExposureFramePeriod(exposurePeriod, framePeriod),
     SetPatternTriggerMode(TrigMode),
     SendPatLut,
     SendImageLut(lut, n),
     ValidatePatLutData,
     PatternDisplay(Start)]
  }

  function CountLutEntries(trace: seq<Command>): nat
  {
    if trace == [] then 0
    else (if trace[0].AddToPatLut? then 1 else 0) + CountLutEntries(trace[1..])
  }

  lemma {:induction false} CountLutEntriesAppend(a: seq<Command>, b: seq<Command>)
    ensures CountLutEntries(a + b) == CountLutEntries(a) + CountLutEntries(b)
    decreases |a|
  {
    if a == [] {
      assert a + b == b;
    } else {
      CountLutEntriesAppend(a[1..], b);
      assert (a + b)[1..] == a[1..] + b;
    }
  }

  lemma {:induction false} CountAllLutEntries(entries: seq<Command>)
    requires forall k | 0 <= k < |entries| :: entries[k].AddToPatLut?
    ensures CountLutEntries(entries) == |entries|
    decreases |entries|
  {
    if entries != [] {
      CountAllLutEntries(entries[1..]);
    }
  }

  lemma {:induction false} NoLutEntries(commands: seq<Command>)
    requires forall k | 0 <= k < |commands| :: !commands[k].AddToPatLut?
    ensures CountLutEntries(commands) == 0
    decreases |commands|
  {
    if commands != [] {
      NoLutEntries(commands[1..]);
    }
  }

  /**
   * The plan holds 11 fixed commands around one AddToPatLut per image and
   * bitplane group; since there is one group, every entry is the same:
   * internal trigger, pattern 0, 8 bits, white, buffer swap.
   */
  lemma PlanShape(lut: seq<uchar>, exposurePeriod: int, framePeriod: int, repeat: int)
    ensures var plan := Plan(lut, exposurePeriod, framePeriod, repeat);
      |plan| == 11 + |lut| * BitplaneGroups &&
      CountLutEntries(plan) == |lut| * BitplaneGroups &&
      forall k | 3 <= k < 3 + |lut| :: plan[k] == AddToPatLut(0, 0, 8, 7, false, false, true, false)
  {
    var n := |lut|;
    var plan := Plan(lut, exposurePeriod, framePeriod, repeat);
    var head: seq<Command> := [SetMode(PatternMode), PatternDisplay(Stop), ClearPatLut];
    var tail := plan[3 + n..];
    assert plan == head + LutEntries(n) + tail;
    CountAllLutEntries(LutEntries(n));
    CountLutEntriesAppend(head + LutEntries(n), tail);
    CountLutEntriesAppend(head, LutEntries(n));
    NoLutEntries(head);
    NoLutEntries(tail);
  }

  /** Where each command sits in the plan. */
  lemma PlanIndices(lut: seq<uchar>, exposurePeriod: int, framePeriod: int, repeat: int)
    ensures var plan := Plan(lut, exposurePeriod, framePeriod, repeat);
      var n := |lut|;
      |plan| == 11 + n * BitplaneGroups &&
      plan[0] == SetMode(PatternMode) && plan[1] == PatternDisplay(Stop) && plan[2] == ClearPatLut &&
      plan[3..3 + n * BitplaneGroups] == LutEntries(n) &&
      plan[3 + n] == SetPatternDisplayMode(External) &&
      plan[4 + n] == SetPatternConfig(n * BitplaneGroups, repeat, NumPatsForTrigOut2(n, repeat), n) &&
      plan[5 + n] == SetExposureFramePeriod(exposurePeriod, framePeriod) &&
      plan[6 + n] == SetPatternTriggerMode(TrigMode) &&
      plan[7 + n] == SendPatLut &&
      plan[8 + n] == SendImageLut(lut, n) &&
      plan[9 + n] == ValidatePatLutData &&
      plan[10 + n] == PatternDisplay(Start)
  {
  }

  /**
   * SetPatternConfig gets the LUT entry count, the repeat flag, 1 or the
   * entry count for trigger out 2, and the image count.
   */
  lemma PatternConfigArguments(lut: seq<uchar>, exposurePeriod: int, framePeriod: int, repeat: int)
    ensures var plan := Plan(lut, exposurePeriod, framePeriod, repeat);
      plan[4 + |lut|] == SetPatternConfig(|lut|, repeat, if repeat != 0 then 1 else |lut|, |lut|) &&
      plan[8 + |lut|] == SendImageLut(lut, |lut|)
  {
  }

  // ---------------------------------------------------------------------------
  // Issuing the commands.

  /** Every command of the plan succeeds. */
  ghost predicate AllSucceeded(plan: seq<Command>, reply: nat -> int)
  {
    forall i | 0 <= i < |plan| :: reply(i) >= 0
  }

  /** So far: a prefix of the plan, each command of which succeeded. */
  ghost predicate OnPlan(trace: seq<Command>, plan: seq<Command>, reply: nat -> int)
  {
    trace <= plan && forall i | 0 <= i < |trace| :: reply(i) >= 0
  }

  /**
   * The commands issued until the first failure: a prefix of the plan,
   * every command but the last succeeded, and when the plan was cut short
   * the last one failed.
   */
  ghost predicate IssuedUntilFirstFailure(trace: seq<Command>, plan: seq<Command>, reply: nat -> int)
  {
    trace <= plan &&
    (forall i | 0 <= i < |trace| - 1 :: reply(i) >= 0) &&
    (|trace| < |plan| ==> trace != [] && reply(|trace| - 1) < 0)
  }

  /** The reference: issue the plan from command i on, stopping after the first failure. */
  function IssueFrom(plan: seq<Command>, reply: nat -> int, i: nat): seq<Command>
    requires i <= |plan|
    decreases |plan| - i
  {
    if i == |plan| then []
    else if reply(i) < 0 then [plan[i]]
    else [plan[i]] + IssueFrom(plan, reply, i + 1)
  }

  /** IssuedUntilFirstFailure pins the trace down: it is the reference issue order. */
  lemma IssuedIsDetermined(trace: seq<Command>, plan: seq<Command>, reply: nat -> int)
    requires IssuedUntilFirstFailure(trace, plan, reply)
    ensures trace == IssueFrom(plan, reply, 0)
  {
    if trace != [] {
      IssuedFromMatches(trace, plan, reply, 0);
    }
  }

  lemma {:induction false} IssuedFromMatches(trace: seq<Command>, plan: seq<Command>, reply: nat -> int, i: nat)
    requires IssuedUntilFirstFailure(trace, plan, reply)
    requires i < |trace|
    ensures trace[i..] == IssueFrom(plan, reply, i)
    decreases |trace| - i
  {
    assert trace[i] == plan[i];
    if reply(i) >= 0 {
      if i + 1 < |trace| {
        IssuedFromMatches(trace, plan, reply, i + 1);
        assert trace[i..] == [trace[i]] + trace[i + 1..];
      } else {
        assert |trace| == |plan|;
      }
    }
  }

  /**
   * Issue a command: its return code is the next reply. On success the
   * trace stays on the plan; on failure it stops there.
   */
  method Issue(trace: seq<Command>, command: Command, reply: nat -> int, ghost plan: seq<Command>)
    returns (issued: seq<Command>, ok: bool)
    requires OnPlan(trace, plan, reply) && |trace| < |plan| && plan[|trace|] == command
    ensures issued == trace + [command]
    ensures ok <==> reply(|trace|) >= 0
    ensures ok ==> OnPlan(issued, plan, reply)
    ensures !ok ==> IssuedUntilFirstFailure(issued, plan, reply) && !AllSucceeded(plan, reply)
  {
    issued := trace + [command];
    ok := reply(|trace|) >= 0;
    assert issued == plan[..|trace| + 1];
  }

  /**
   * The first part of LightCrafterFlash: fill splashLut from the sequence
   * argument, or report the first index out of range.
   */
  method BuildSplashLut(sequence: string, numImgInFlash: unsigned, splashLut: array<uchar>)
    returns (indexError: bool, numFlashImSeq: nat)
    requires splashLut.Length == SplashLutSize
    requires SequenceDefined(sequence, numImgInFlash)
    modifies splashLut
    ensures indexError <==> ImageLut(sequence, numImgInFlash).IndexError?
    ensures !indexError ==> numFlashImSeq <= SplashLutSize && splashLut[..numFlashImSeq] == ImageLut(sequence, numImgInFlash).lut
  {
    if sequence == "all" {
      numFlashImSeq := numImgInFlash;
      for i := 0 to numImgInFlash
        invariant splashLut[..i] == AllImages(i)
      {
        splashLut[i] := LutByte(i);
      }
      indexError := false;
    } else {
      indexError, numFlashImSeq := ReadTokens(GetlineTokens(sequence), IndexBound(numImgInFlash), splashLut);
    }
  }

  /** The getline loop of LightCrafterFlash over the tokens of the sequence argument. */
  method ReadTokens(tokens: seq<string>, bound: unsigned, splashLut: array<uchar>)
    returns (indexError: bool, numFlashImSeq: nat)
    requires splashLut.Length == SplashLutSize
    requires TokensDefined(tokens, bound, 0)
    modifies splashLut
    ensures indexError <==> ParseTokens(tokens, bound, 0).IndexError?
    ensures !indexError ==> numFlashImSeq <= SplashLutSize && splashLut[..numFlashImSeq] == ParseTokens(tokens, bound, 0).lut
  {
    numFlashImSeq := 0;
    while numFlashImSeq < |tokens|
      invariant numFlashImSeq <= |tokens| && numFlashImSeq <= SplashLutSize
      invariant TokensDefined(tokens[numFlashImSeq..], bound, numFlashImSeq)
      invariant ParseTokens(tokens, bound, 0) ==
        Prepend(splashLut[..numFlashImSeq], ParseTokens(tokens[numFlashImSeq..], bound, numFlashImSeq))
    {
      var token := tokens[numFlashImSeq];
      if bound < DecimalValue(token) {
        PrependIndexError(splashLut[..numFlashImSeq]);
        return true, numFlashImSeq;
      }
      ParseTokensStep(tokens, bound, numFlashImSeq);
      ghost var stored := splashLut[..numFlashImSeq];
      splashLut[numFlashImSeq] := LutByte(DecimalValue(token));
      assert splashLut[..numFlashImSeq + 1] == stored + [LutByte(DecimalValue(token))];
      PrependTwice(stored, [LutByte(DecimalValue(token))], ParseTokens(tokens[numFlashImSeq + 1..], bound, numFlashImSeq + 1));
      numFlashImSeq := numFlashImSeq + 1;
    }
    PrependParsedEmpty(splashLut[..numFlashImSeq]);
    indexError := false;
  }

  /** One token within the bound: it is stored, and the rest is parsed from the next slot. */
  lemma ParseTokensStep(tokens: seq<string>, bound: unsigned, i: nat)
    requires i < |tokens| && TokensDefined(tokens[i..], bound, i)
    requires DecimalValue(tokens[i]) <= bound
    ensures i < SplashLutSize && TokensDefined(tokens[i + 1..], bound, i + 1)
    ensures ParseTokens(tokens[i..], bound, i) ==
      Prepend([LutByte(DecimalValue(tokens[i]))], ParseTokens(tokens[i + 1..], bound, i + 1))
  {
    assert tokens[i..][1..] == tokens[i + 1..];
  }

  lemma PrependTwice(a: seq<uchar>, b: seq<uchar>, outcome: ParseOutcome)
    ensures Prepend(a, Prepend(b, outcome)) == Prepend(a + b, outcome)
  {
    if outcome.Parsed? {
      assert a + (b + outcome.lut) == (a + b) + outcome.lut;
    }
  }

  lemma PrependIndexError(a: seq<uchar>)
    ensures Prepend(a, IndexError) == IndexError
  {
  }

  lemma PrependParsedEmpty(a: seq<uchar>)
    ensures Prepend(a, Parsed([])) == Parsed(a)
  {
    assert a + [] == a;
  }

  /** The nested loop of LightCrafterFlash: one AddToPatLut per image and bitplane group. */
  method AddLutEntries(trace: seq<Command>, numFlashImSeq: nat, reply: nat -> int, ghost plan: seq<Command>)
    returns (issued: seq<Command>, ok: bool)
    requires OnPlan(trace, plan, reply) && |trace| == 3
    requires 3 + numFlashImSeq * BitplaneGroups <= |plan|
    requires plan[3..3 + numFlashImSeq * BitplaneGroups] == LutEntries(numFlashImSeq)
    ensures ok ==> OnPlan(issued, plan, reply) && |issued| == 3 + numFlashImSeq * BitplaneGroups
    ensures !ok ==> IssuedUntilFirstFailure(issued, plan, reply) && !AllSucceeded(plan, reply)
  {
    issued := trace;
    for i := 0 to numFlashImSeq
      invariant |issued| == 3 + i * BitplaneGroups
      invariant OnPlan(issued, plan, reply)
    {
      for j := 0 to BitplaneGroups
        invariant |issued| == 3 + i * BitplaneGroups + j
        invariant OnPlan(issued, plan, reply)
      {
        var bufSwap := if j == 0 then !BufSwap else BufSwap;
        assert plan[|issued|] == LutEntries(numFlashImSeq)[i * BitplaneGroups + j];
        issued, ok := Issue(issued, AddToPatLut(TrigType, PatNum[j], BitDepth, LedSelect, InvertPat, InsertBlack, bufSwap, TrigOutPrev), reply, plan);
        if !ok {
          return;
        }
      }
    }
    ok := true;
  }

  /**
   * LightCrafterFlash(exposurePeriod, framePeriod, repeat, sequence): -1
   * when the projector is not connected or an index is out of range, with
   * no command issued; otherwise the commands of the plan in order up to
   * the first that fails, and 0 exactly when every one succeeded.
   */
  method LightCrafterFlash(exposurePeriod: int, framePeriod: int, repeat: int, sequence: string,
                           connected: bool, numImgInFlash: unsigned, reply: nat -> int)
    returns (result: int, trace: seq<Command>)
    requires connected ==> SequenceDefined(sequence, numImgInFlash)
    ensures result == 0 || result == -1
    ensures !connected ==> result == -1 && trace == []
    ensures connected && ImageLut(sequence, numImgInFlash).IndexError? ==> result == -1 && trace == []
    ensures connected && ImageLut(sequence, numImgInFlash).Parsed? ==>
      var plan := Plan(ImageLut(sequence, numImgInFlash).lut, exposurePeriod, framePeriod, repeat);
      IssuedUntilFirstFailure(trace, plan, reply) &&
      (result == 0 <==> trace == plan && AllSucceeded(plan, reply))
  {
    trace := [];
    if !connected {
      return -1, trace;
    }
    var splashLut := new uchar[SplashLutSize];
    var indexError, numFlashImSeq := BuildSplashLut(sequence, numImgInFlash, splashLut);
    if indexError {
      return -1, trace;
    }
    result, trace := IssueCommands(splashLut[..numFlashImSeq], exposurePeriod, framePeriod, repeat, reply);
  }

  /**
   * The command part of LightCrafterFlash, once splashLut holds lut: the
   * plan's commands in order up to the first that fails, then -1, or 0
   * after the last.
   */
  method IssueCommands(lut: seq<uchar>, exposurePeriod: int, framePeriod: int, repeat: int, reply: nat -> int)
    returns (result: int, trace: seq<Command>)
    ensures result == 0 || result == -1
    ensures IssuedUntilFirstFailure(trace, Plan(lut, exposurePeriod, framePeriod, repeat), reply)
    ensures result == 0 <==> trace == Plan(lut, exposurePeriod, framePeriod, repeat) && AllSucceeded(Plan(lut, exposurePeriod, framePeriod, repeat), reply)
  {
    var numFlashImSeq := |lut|;
    ghost var plan := Plan(lut, exposurePeriod, framePeriod, repeat);
    PlanIndices(lut, exposurePeriod, framePeriod, repeat);
    var ok;
    trace, ok := IssueSetup(numFlashImSeq, reply, plan);
    if !ok { return -1, trace; }
    var numPatsForTrigOut2 := if repeat != 0 then 1 else numFlashImSeq * BitplaneGroups;
    trace, ok := IssueConfig(trace, numFlashImSeq, numPatsForTrigOut2, exposurePeriod, framePeriod, repeat, reply, plan);
    if !ok { return -1, trace; }
    trace, ok := IssueStart(trace, lut, reply, plan);
    if !ok { return -1, trace; }
    assert trace == plan;
    return 0, trace;
  }

  /** SetMode, PatternDisplay(Stop), ClearPatLut and the LUT entries, from an empty trace. */
  method IssueSetup(numFlashImSeq: nat, reply: nat -> int, ghost plan: seq<Command>)
    returns (trace: seq<Command>, ok: bool)
    requires 3 + numFlashImSeq * BitplaneGroups <= |plan|
    requires plan[0] == SetMode(PatternMode) && plan[1] == PatternDisplay(Stop) && plan[2] == ClearPatLut
    requires plan[3..3 + numFlashImSeq * BitplaneGroups] == LutEntries(numFlashImSeq)
    ensures ok ==> OnPlan(trace, plan, reply) && |trace| == 3 + numFlashImSeq * BitplaneGroups
    ensures !ok ==> IssuedUntilFirstFailure(trace, plan, reply) && !AllSucceeded(plan, reply)
  {
    trace := [];
    trace, ok := Issue(trace, SetMode(PatternMode), reply, plan);
    if !ok { return; }
    trace, ok := Issue(trace, PatternDisplay(Stop), reply, plan);
    if !ok { return; }
    trace, ok := Issue(trace, ClearPatLut, reply, plan);
    if !ok { return; }
    trace, ok := AddLutEntries(trace, numFlashImSeq, reply, plan);
  }

  /** The display mode, the pattern configuration, the periods and the trigger mode. */
  method IssueConfig(trace: seq<Command>, n: nat, numPatsForTrigOut2: int,
                     exposurePeriod: int, framePeriod: int, repeat: int, reply: nat -> int, ghost plan: seq<Command>)
    returns (issued: seq<Command>, ok: bool)
    requires OnPlan(trace, plan, reply) && |trace| == 3 + n && 7 + n <= |plan|
    requires plan[3 + n] == SetPatternDisplayMode(External)
    requires plan[4 + n] == SetPatternConfig(n * BitplaneGroups, repeat, numPatsForTrigOut2, n)
    requires plan[5 + n] == SetExposureFramePeriod(exposurePeriod, framePeriod)
    requires plan[6 + n] == SetPatternTriggerMode(TrigMode)
    ensures ok ==> OnPlan(issued, plan, reply) && |issued| == 7 + n
    ensures !ok ==> IssuedUntilFirstFailure(issued, plan, reply) && !AllSucceeded(plan, reply)
  {
    issued, ok := Issue(trace, SetPatternDisplayMode(External), reply, plan);
    if !ok { return; }
    issued, ok := Issue(issued, SetPatternConfig(n * BitplaneGroups, repeat, numPatsForTrigOut2, n), reply, plan);
    if !ok { return; }
    issued, ok := Issue(issued, SetExposureFramePeriod(exposurePeriod, framePeriod), reply, plan);
    if !ok { return; }
    issued, ok := Issue(issued, SetPatternTriggerMode(TrigMode), reply, plan);
  }

  /** SendPatLut, SendImageLut, ValidatePatLutData and PatternDisplay(Start): the end of the plan. */
  method IssueStart(trace: seq<Command>, lut: seq<uchar>, reply: nat -> int, ghost plan: seq<Command>)
    returns (issued: seq<Command>, ok: bool)
    requires OnPlan(trace, plan, reply) && |trace| == 7 + |lut| && |plan| == 11 + |lut|
    requires plan[7 + |lut|] == SendPatLut && plan[8 + |lut|] == SendImageLut(lut, |lut|)
    requires plan[9 + |lut|] == ValidatePatLutData && plan[10 + |lut|] == PatternDisplay(Start)
    ensures ok ==> OnPlan(issued, plan, reply) && |issued| == |plan|
    ensures !ok ==> IssuedUntilFirstFailure(issued, plan, reply) && !AllSucceeded(plan, reply)
  {
    issued, ok := Issue(trace, SendPatLut, reply, plan);
    if !ok { return; }
    issued, ok := Issue(issued, SendImageLut(lut, |lut|), reply, plan);
    if !ok { return; }
    issued, ok := Issue(issued, ValidatePatLutData, reply, plan);
    if !ok { return; }
    issued, ok := Issue(issued, PatternDisplay(Start), reply, plan);
  }
}
