/** Which on-chain variant a hash resolved as. */
module HashKinds {

  datatype HashKind = DeployKind | TransactionKind
}

/** awaitDeployFinalized over a scripted node: which poll answers, after how many sleeps, and what it reports. */
module FinalityPolls {
  import opened Wrappers
  import opened Decimal
  import opened JsText
  import opened HashKinds
  import opened VaultMachine

  // ---- What one poll sees ----

  /** executionResult, once attached, carries an error message or none. */
  datatype ExecutionInfo = ExecutionInfo(blockHeight: int, result: Option<Option<string>>)

  datatype Lookup = LookupThrew | Resolved(info: Option<ExecutionInfo>)

  /** What the node would answer to each of the two lookups of one poll. */
  datatype Probe = Probe(byDeployHash: Lookup, byTransactionHash: Lookup)

  /** The deploy lookup first; the transaction lookup only when it threw. */
  function ReadExecutionInfo(p: Probe): (Option<ExecutionInfo>, HashKind) {
    match p.byDeployHash
    case Resolved(info) => (info, DeployKind)
    case LookupThrew =>
      (match p.byTransactionHash case Resolved(info) => info case LookupThrew => None, TransactionKind)
  }

  // ---- The error code in a message ----

  function LowerAscii(c: char): char {
    if 'A' <= c <= 'Z' then c - 'A' + 'a' else c
  }

  const MARK: string := "user error:"

  /** /user error:/i at one position. */
  predicate MarkAt(s: string, i: nat) {
    i + 11 <= |s| && forall j :: 0 <= j < 11 ==> LowerAscii(s[i + j]) == MARK[j]
  }

  function SkipSpaces(s: string): string {
    if s != [] && IsSpace(s[0]) then SkipSpaces(s[1..]) else s
  }

  function DigitRun(s: string): (r: string)
    ensures forall i :: 0 <= i < |r| ==> IsDigit(r[i])
  {
    if s != [] && IsDigit(s[0]) then [s[0]] + DigitRun(s[1..]) else []
  }

  /** The capture of the leftmost match from position i on. */
  function Captured(s: string, i: nat): (r: Option<string>)
    ensures r.Some? ==> AllDigits(r.value)
    decreases |s| - i
  {
    if i + 11 > |s| then None
    else if MarkAt(s, i) && DigitRun(SkipSpaces(s[i + 11..])) != "" then Some(DigitRun(SkipSpaces(s[i + 11..])))
    else Captured(s, i + 1)
  }

  /** Number(...) is exact up to 2^53; beyond it the double is rounded. */
  datatype ErrorCode = NoCode | Exact(code: nat) | Rounded

  function ErrorCodeOf(message: string): ErrorCode {
    match Captured(message, 0)
    case None => NoCode
    case Some(digits) => if ValueOf(digits) <= 0x20_0000_0000_0000 then Exact(ValueOf(digits)) else Rounded
  }

  datatype Finalization = Finalization(finalizedHeight: int, success: bool, hashKind: HashKind, errorCode: ErrorCode)

  predicate HasResult(p: Probe) {
    ReadExecutionInfo(p).0.Some? && ReadExecutionInfo(p).0.value.result.Some?
  }

  /** An absent and an empty error message both mean success. */
  function Report(p: Probe): Finalization
    requires HasResult(p)
  {
    var (info, hashKind) := ReadExecutionInfo(p);
    var message := info.value.result.value;
    Finalization(
      info.value.blockHeight,
      message == None || message.value == "",
      hashKind,
      if message == None then NoCode else ErrorCodeOf(message.value))
  }

  // ---- Revert codes survive the trip through the message ----

  const USER_ERROR: string := "User error: "

  lemma MarkLeads(tail: string)
    ensures MarkAt(USER_ERROR + tail, 0)
    ensures (USER_ERROR + tail)[11..] == [' '] + tail
  {
    var s := USER_ERROR + tail;
    assert forall j :: 0 <= j < 12 ==> s[j] == USER_ERROR[j];
    assert USER_ERROR[11] == ' ';
  }

  lemma {:induction false} DigitRunStops(digits: string, rest: string)
    requires (forall i :: 0 <= i < |digits| ==> IsDigit(digits[i])) && (rest != "" ==> !IsDigit(rest[0]))
    ensures DigitRun(digits + rest) == digits
  {
    if digits == "" {
      assert digits + rest == rest;
    } else {
      DigitRunStops(digits[1..], rest);
      assert (digits + rest)[1..] == digits[1..] + rest;
    }
  }

  lemma {:induction false} CapturedSkips(s: string, i: nat, k: nat)
    requires i <= k && k + 11 <= |s| && forall j :: i <= j < k ==> !MarkAt(s, j)
    ensures Captured(s, i) == Captured(s, k)
    decreases k - i
  {
    if i < k { CapturedSkips(s, i + 1, k); }
  }

  /**
   * "User error: N" is read back as N, whatever surrounds it: the first marker counts, and the
   * digits end where they end.
   */
  lemma UserErrorReadsBack(before: string, n: nat, after: string)
    requires n <= 0x20_0000_0000_0000 && (after != "" ==> !IsDigit(after[0]))
    requires forall j :: 0 <= j < |before| ==> !MarkAt(before + USER_ERROR + Print(n) + after, j)
    ensures ErrorCodeOf(before + USER_ERROR + Print(n) + after) == Exact(n)
  {
    ParsePrint(n);
    var digits := Print(n);
    var s, k := before + USER_ERROR + digits + after, |before|;
    var tail := digits + after;
    assert s[k..] == USER_ERROR + tail;
    MarkLeads(tail);
    assert MarkAt(s, k) by { assert forall j :: 0 <= j < 11 ==> s[k + j] == (USER_ERROR + tail)[j]; }
    assert s[k + 11..] == s[k..][11..];
    DigitRunStops(digits, after);
    CapturedSkips(s, 0, k);
    hide MarkAt, ValueOf, Print, DigitRun;
    assert IsDigit(tail[0]) && !IsSpace(tail[0]);
    assert ([' '] + tail)[1..] == tail;
    assert SkipSpaces([' '] + tail) == SkipSpaces(tail) == tail;
    assert Captured(s, k) == Some(digits);
  }

  /** Every revert of the vault keeps its discriminant. */
  lemma RevertCodeReadsBack(e: Revert)
    ensures ErrorCodeOf(USER_ERROR + Print(Code(e))) == Exact(Code(e))
  {
    UserErrorReadsBack("", Code(e), "");
    assert "" + USER_ERROR + Print(Code(e)) + "" == USER_ERROR + Print(Code(e));
  }

  /** A number elsewhere in a message is never taken for a code. */
  lemma {:induction false} NoMarkNoCode(s: string, i: nat)
    requires forall j :: i <= j < |s| ==> !MarkAt(s, j)
    ensures Captured(s, i) == None
    decreases |s| - i
  {
    if i + 11 <= |s| {
      NoMarkNoCode(s, i + 1);
    }
  }

  // ---- The polling loop ----

  /** What a poll learns: the deploy lookup's information, or the transaction lookup's once that one threw, with a result attached. */
  predicate Answers(p: Probe, kind: HashKind, info: ExecutionInfo) {
    info.result.Some?
    && match kind
       case DeployKind => p.byDeployHash == Resolved(Some(info))
       case TransactionKind => p.byDeployHash.LookupThrew? && p.byTransactionHash == Resolved(Some(info))
  }

  lemma HasResultMeans(p: Probe)
    ensures HasResult(p) <==> exists kind, info :: Answers(p, kind, info)
    ensures forall kind, info :: Answers(p, kind, info) ==> ReadExecutionInfo(p) == (Some(info), kind)
  {
    if HasResult(p) {
      assert Answers(p, ReadExecutionInfo(p).1, ReadExecutionInfo(p).0.value);
    }
  }

  /**
   * What is reported of an answer: its height and the lookup it came from, success exactly without
   * a message or with an empty one, no code without a message, and every revert of the vault as a
   * failure with that revert's code.
   */
  predicate Reports(f: Finalization, kind: HashKind, info: ExecutionInfo)
    requires info.result.Some?
  {
    var message := info.result.value;
    && f.hashKind == kind && f.finalizedHeight == info.blockHeight
    && (f.success <==> message == None || message == Some(""))
    && (message == None ==> f.errorCode == NoCode)
    && (message.Some? ==> f.errorCode == ErrorCodeOf(message.value))
  }

  ghost predicate KeepsReverts(f: Finalization, info: ExecutionInfo)
    requires info.result.Some?
  {
    forall e: Revert :: info.result.value == Some(USER_ERROR + Print(Code(e))) ==> !f.success && f.errorCode == Exact(Code(e))
  }

  lemma ReportReports(p: Probe, kind: HashKind, info: ExecutionInfo)
    requires Answers(p, kind, info)
    ensures HasResult(p) && Reports(Report(p), kind, info) && KeepsReverts(Report(p), info)
  {
    HasResultMeans(p);
    forall e: Revert | info.result.value == Some(USER_ERROR + Print(Code(e)))
      ensures !Report(p).success && Report(p).errorCode == Exact(Code(e))
    {
      RevertCodeReadsBack(e);
      assert USER_ERROR + Print(Code(e)) != "";
    }
  }

  /**
   * The earliest poll that learns a result answers, after one sleep for each poll before it; with
   * none in the budget it throws, after one sleep fewer than polls.
   */
  method AwaitDeployFinalized(chain: nat -> Probe, maxAttempts: int) returns (r: Option<Finalization>, polls: nat, sleeps: nat)
    ensures r == None <==> forall k: nat, kind, info :: k < maxAttempts ==> !Answers(chain(k), kind, info)
    ensures r.Some? ==>
      0 < polls <= maxAttempts && sleeps == polls - 1
      && (forall k: nat, kind, info :: k < polls - 1 ==> !Answers(chain(k), kind, info))
      && exists kind, info ::
        Answers(chain(polls - 1), kind, info) && Reports(r.value, kind, info) && KeepsReverts(r.value, info)
    ensures r == None ==>
      polls == (if maxAttempts > 0 then maxAttempts else 0) && sleeps == (if maxAttempts > 0 then maxAttempts - 1 else 0)
  {
    r, polls, sleeps := None, 0, 0;
    while polls < maxAttempts
      invariant polls == 0 || polls <= maxAttempts
      invariant forall k: nat, kind, info :: k < polls ==> !Answers(chain(k), kind, info)
      invariant sleeps == if polls < maxAttempts then polls else if polls == 0 then 0 else polls - 1
    {
      var attempt := polls;
      polls := polls + 1;
      HasResultMeans(chain(attempt));
      if HasResult(chain(attempt)) {
        r := Some(Report(chain(attempt)));
        ghost var kind, info :| Answers(chain(attempt), kind, info);
        ReportReports(chain(attempt), kind, info);
        return;
      }
      if attempt < maxAttempts - 1 { sleeps := sleeps + 1; }
    }
  }
}
