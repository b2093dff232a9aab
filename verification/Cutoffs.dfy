/** Where a conversation may be cut for summarization. */
module Cutoffs {
  import opened Conversation

  predicate Calls(m: Message) {
    m.role == Assistant && m.calls != []
  }

  /** A boundary the summarizer accepts: either end, or a place that follows no
      call and precedes no result. */
  predicate Safe(ms: seq<Message>, r: int) {
    0 <= r <= |ms| && (r == 0 || r == |ms| || (!IsTool(ms[r]) && !Calls(ms[r - 1])))
  }

  function Clamp(n: int, top: nat): nat {
    if n <= 0 then 0 else if n > top then top else n
  }

  /** The least safe boundary at or after `desired`. */
  ghost predicate IsLeastSafe(ms: seq<Message>, desired: int, r: int) {
    Safe(ms, r) && Clamp(desired, |ms|) <= r && forall e :: Clamp(desired, |ms|) <= e < r ==> !Safe(ms, e)
  }

  method ValidCutoff(messages: seq<Message>, desired0: int) returns (r: nat)
    ensures IsLeastSafe(messages, desired0, r)
  {
    var desired := desired0;
    if desired <= 0 {
      return 0;
    }
    while desired < |messages|
      invariant desired0 <= desired && (desired0 <= |messages| ==> desired <= |messages|) && 0 < desired
      invariant desired0 > |messages| ==> desired == desired0
      invariant forall e :: desired0 <= e < desired ==> !Safe(messages, e)
    {
      if desired > 0 && messages[desired].role == Tool {
        desired := desired + 1;
        continue;
      }
      if desired > 0 && messages[desired - 1].role == Assistant && |messages[desired - 1].calls| > 0 {
        desired := desired + 1;
        continue;
      }
      break;
    }
    return if desired <= |messages| then desired else |messages|;
  }

  /** A tool result and the message whose turn it belongs to. */
  ghost predicate SameTurn(ms: seq<Message>, head: nat, result: nat) {
    && head < result < |ms|
    && forall j :: head < j <= result ==> IsTool(ms[j])
  }

  /** No safe boundary falls inside a turn, whatever state the history is in. */
  lemma SafeKeepsTurns(ms: seq<Message>, r: nat, head: nat, result: nat)
    requires Safe(ms, r) && SameTurn(ms, head, result)
    ensures head < r <==> result < r
  {
  }

  /** Cutting a well-paired history at a safe boundary gives two well-paired halves. */
  lemma SafeCutKeepsPairs(ms: seq<Message>, r: nat)
    requires WellPaired(ms) && Safe(ms, r)
    ensures WellPaired(ms[..r]) && WellPaired(ms[r..])
  {
    CutIsSafeExactly(ms, r);
  }

  // ------------------------------------------------------------ token budget

  /** What the token estimate adds for a call on its own, besides each message. */
  const Trailer: nat := 3

  /** The messages' estimates taken one at a time, as the cut-off loop takes them. */
  function Separately(ms: seq<Message>, own: Message -> nat): nat {
    if ms == [] then 0 else own(ms[0]) + Trailer + Separately(ms[1..], own)
  }

  function Own(ms: seq<Message>, own: Message -> nat): nat {
    if ms == [] then 0 else own(ms[0]) + Own(ms[1..], own)
  }

  /** The estimate of a whole history. */
  function Tokens(ms: seq<Message>, own: Message -> nat): nat {
    if ms == [] then 0 else Own(ms, own) + Trailer
  }

  /** One at a time, every message pays for a whole call: three tokens each. */
  lemma {:induction false} SeparatelyMeans(ms: seq<Message>, own: Message -> nat)
    ensures Separately(ms, own) == Own(ms, own) + 3 * |ms|
    decreases |ms|
  {
    if ms != [] {
      SeparatelyMeans(ms[1..], own);
    }
  }

  lemma {:induction false} TogetherIsLess(ms: seq<Message>, own: Message -> nat)
    ensures Tokens(ms, own) <= Separately(ms, own)
    decreases |ms|
  {
    if ms != [] {
      TogetherIsLess(ms[1..], own);
    }
  }

  /** A tail the budget admits; a single message is admitted at any size. */
  predicate Fits(ms: seq<Message>, own: Message -> nat, budget: nat) {
    |ms| <= 1 || Separately(ms, own) <= budget
  }

  lemma {:induction false} SeparatelySuffix(ms: seq<Message>, d: nat, own: Message -> nat)
    requires d <= |ms|
    ensures Separately(ms[d..], own) <= Separately(ms, own)
    decreases d
  {
    if d == 0 {
      assert ms[d..] == ms;
    } else {
      assert ms[1..][d - 1..] == ms[d..];
      SeparatelySuffix(ms[1..], d - 1, own);
    }
  }

  lemma FitsSuffix(ms: seq<Message>, d: nat, e: nat, own: Message -> nat, budget: nat)
    requires d <= e <= |ms| && Fits(ms[d..], own, budget)
    ensures Fits(ms[e..], own, budget)
  {
    assert ms[d..][e - d..] == ms[e..];
    SeparatelySuffix(ms[d..], e - d, own);
  }

  /** The backward token loop finds the longest tail that fits. */
  method KeptFrom(messages: seq<Message>, own: Message -> nat, keepTokens: nat) returns (desired: nat)
    requires keepTokens > 0
    ensures desired <= |messages| && Fits(messages[desired..], own, keepTokens)
    ensures forall e :: 0 <= e < desired ==> !Fits(messages[e..], own, keepTokens)
  {
    var kept := 0;
    desired := |messages|;
    assert messages[desired..] == [];
    while desired > 0
      invariant desired <= |messages| && kept == Separately(messages[desired..], own)
      invariant Fits(messages[desired..], own, keepTokens)
    {
      var candidate := own(messages[desired - 1]) + Trailer;
      assert messages[desired - 1..][1..] == messages[desired..];
      if kept + candidate > keepTokens && desired < |messages| {
        break;
      }
      kept := kept + candidate;
      desired := desired - 1;
    }
    forall e | 0 <= e < desired
      ensures !Fits(messages[e..], own, keepTokens)
    {
      if Fits(messages[e..], own, keepTokens) {
        FitsSuffix(messages, e, desired - 1, own, keepTokens);
      }
    }
  }

  /** With a token budget the cut is the least safe boundary whose tail fits;
      without one it is the least safe boundary that keeps at most
      `keepMessages` messages. */
  method SummaryCutoff(messages: seq<Message>, own: Message -> nat, keepMessages: int, keepTokens: int) returns (r: nat)
    ensures Safe(messages, r)
    ensures keepTokens > 0 ==> Fits(messages[r..], own, keepTokens)
    ensures keepTokens > 0 ==> forall e :: 0 <= e < r && Safe(messages, e) ==> !Fits(messages[e..], own, keepTokens)
    ensures keepTokens > 0 ==> |messages[r..]| <= 1 || Tokens(messages[r..], own) <= keepTokens
    ensures keepTokens <= 0 ==> IsLeastSafe(messages, |messages| - keepMessages, r)
    ensures WellPaired(messages) ==> WellPaired(messages[..r]) && WellPaired(messages[r..])
  {
    var desired := |messages| - keepMessages;
    if keepTokens > 0 {
      desired := KeptFrom(messages, own, keepTokens);
    }
    r := ValidCutoff(messages, desired);
    if keepTokens > 0 {
      FitsSuffix(messages, desired, r, own, keepTokens);
      TogetherIsLess(messages[r..], own);
    }
    if WellPaired(messages) {
      SafeCutKeepsPairs(messages, r);
    }
  }

  // ------------------------------------------------------- allowed boundaries

  ghost predicate Allowed(ms: seq<Message>, candidates: seq<int>, c: int) {
    c in candidates || c == 0 || c == |ms|
  }

  /** The least safe boundary at or after the desired one that the caller allows.
      It is 0, before the desired one, only when the desired one is past the end. */
  method ConstrainedCutoff(messages: seq<Message>, desired: int, candidates: seq<int>) returns (r: int)
    ensures Safe(messages, r) && Allowed(messages, candidates, r)
    ensures desired <= |messages| <==> desired <= r
    ensures desired <= |messages| ==>
              forall c :: desired <= c < r && Allowed(messages, candidates, c) ==> !Safe(messages, c)
    ensures desired > |messages| ==> r == 0
  {
    var best := |messages|;
    var found := false;
    var all := candidates + [0, |messages|];
    for i := 0 to |all|
      invariant found ==> desired <= best <= |messages| && Safe(messages, best) && best in all[..i]
      invariant forall j :: 0 <= j < i && desired <= all[j] && Safe(messages, all[j]) ==> found && best <= all[j]
    {
      var candidate := all[i];
      assert all[..i + 1] == all[..i] + [candidate];
      if candidate < desired || candidate < 0 || candidate > |messages| {
        continue;
      }
      var fixed := ValidCutoff(messages, candidate);
      if fixed != candidate {
        continue;
      }
      if !found || candidate < best {
        best, found := candidate, true;
      }
    }
    assert all[..|all|] == all;
    assert all[|candidates| + 1] == |messages|;
    forall c | desired <= c && Allowed(messages, candidates, c) && Safe(messages, c)
      ensures found && best <= c
    {
      assert c in all;
      var j :| 0 <= j < |all| && all[j] == c;
    }
    return if found then best else 0;
  }
}
