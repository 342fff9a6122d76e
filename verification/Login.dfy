/** The server side of SASL LOGIN, as a machine that reacts to one response at a time. */
module Login {
  datatype Exchange = Exchange(username: string, haveUser: bool)

  datatype Reaction =
    | Prompt(text: string)
    | Check(username: string, password: string)

  const FRESH := Exchange("", false)
  const ASK_USER := "Username:"
  const ASK_PASSWORD := "Password:"

  function Advanced(x: Exchange, response: string): Exchange {
    if !x.haveUser && response != "" then Exchange(response, true) else x
  }

  function React(x: Exchange, response: string): Reaction {
    if x.haveUser then Check(x.username, response)
    else if response == "" then Prompt(ASK_USER)
    else Prompt(ASK_PASSWORD)
  }

  function Reactions(x: Exchange, responses: seq<string>): (r: seq<Reaction>)
    ensures |r| == |responses|
    decreases responses
  {
    if responses == [] then [] else [React(x, responses[0])] + Reactions(Advanced(x, responses[0]), responses[1..])
  }

  /** `k` is where the first non-empty response stands. */
  ghost predicate FirstText(responses: seq<string>, k: nat) {
    k < |responses| && responses[k] != "" && forall i :: 0 <= i < k ==> responses[i] == ""
  }

  lemma {:induction false} ChecksAfterUser(x: Exchange, responses: seq<string>, i: nat)
    requires x.haveUser && i < |responses|
    ensures Reactions(x, responses)[i] == Check(x.username, responses[i])
    decreases responses
  {
    if i > 0 {
      ChecksAfterUser(x, responses[1..], i - 1);
    }
  }

  /**
   Leading empty responses only prompt; the first non-empty one is the username
   and is never checked; each later one is checked against exactly that username.
   */
  lemma {:induction false} ExchangeMeaning(responses: seq<string>, k: nat, i: nat)
    requires FirstText(responses, k) && i < |responses|
    ensures Reactions(FRESH, responses)[i] ==
      if i < k then Prompt("Username:")
      else if i == k then Prompt("Password:")
      else Check(responses[k], responses[i])
    decreases responses
  {
    var rest := responses[1..];
    if k == 0 {
      if i > 0 {
        ChecksAfterUser(Exchange(responses[0], true), rest, i - 1);
      }
    } else {
      assert responses[0] == "";
      assert forall j :: 0 <= j < |rest| ==> rest[j] == responses[j + 1];
      if i > 0 {
        ExchangeMeaning(rest, k - 1, i - 1);
      }
    }
  }

  /** Nothing but empty responses: nothing is ever checked. */
  lemma {:induction false} NoTextNoCheck(responses: seq<string>, i: nat)
    requires i < |responses| && forall j :: 0 <= j < |responses| ==> responses[j] == ""
    ensures Reactions(FRESH, responses)[i] == Prompt("Username:")
    decreases responses
  {
    if i > 0 {
      NoTextNoCheck(responses[1..], i - 1);
    }
  }

  /** The credential checks among some reactions, in order. */
  function Checks(rs: seq<Reaction>): seq<Reaction> {
    if rs == [] then [] else (if rs[0].Check? then [rs[0]] else []) + Checks(rs[1..])
  }

  /** Prompted first or given with the command, the username leads to the same checks. */
  lemma {:induction false} FlowsAgree(prompts: seq<string>, rest: seq<string>)
    requires forall i :: 0 <= i < |prompts| ==> prompts[i] == ""
    ensures Checks(Reactions(FRESH, prompts + rest)) == Checks(Reactions(FRESH, rest))
    decreases prompts
  {
    if prompts == [] {
      assert prompts + rest == rest;
    } else {
      assert (prompts + rest)[1..] == prompts[1..] + rest;
      FlowsAgree(prompts[1..], rest);
      var later := Reactions(FRESH, prompts[1..] + rest);
      assert Reactions(FRESH, prompts + rest) == [Prompt("Username:")] + later;
      assert ([Prompt("Username:")] + later)[1..] == later;
      assert [] + Checks(later) == Checks(later);
    }
  }
}
