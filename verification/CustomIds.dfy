/** The identifiers carried by Discord buttons: approval cards and host pickers. */
module CustomIds {
  import opened Wrappers
  import opened Text

  const APPROVAL := "kenny-approval"
  const HOST := "kenny-host"
  const LIMIT := 100

  datatype BuildError = UnknownAction | BadRequest | NoAgent | TooLong
  datatype ApprovalAction = ApprovalAction(action: string, approval: string)
  datatype HostChoice = HostChoice(request: string, agent: string)

  predicate IsAction(action: string) {
    action == "approve" || action == "deny"
  }

  function Bounded(id: string): Result<string, BuildError> {
    if |id| > LIMIT then Err(TooLong) else Ok(id)
  }

  function BuildApproval(choice: ApprovalAction): Result<string, BuildError> {
    if !IsAction(choice.action) then Err(UnknownAction)
    else Bounded(Join([APPROVAL, choice.action, choice.approval], ':'))
  }

  function ParseApproval(id: string): Option<ApprovalAction> {
    var parts := SplitMax(id, ':', 2);
    if |parts| != 3 || parts[0] != APPROVAL || !IsAction(parts[1]) || parts[2] == "" then None
    else Some(ApprovalAction(parts[1], parts[2]))
  }

  function BuildHost(choice: HostChoice): Result<string, BuildError> {
    if choice.request == "" || ':' in choice.request then Err(BadRequest)
    else if choice.agent == "" then Err(NoAgent)
    else Bounded(Join([HOST, choice.request, choice.agent], ':'))
  }

  function ParseHost(id: string): Option<HostChoice> {
    var parts := SplitMax(id, ':', 2);
    if |parts| != 3 || parts[0] != HOST || parts[1] == "" || parts[2] == "" then None
    else Some(HostChoice(parts[1], parts[2]))
  }

  /** The identifiers as they are written, and when one is built at all. */
  lemma IdsSpelled(click: ApprovalAction, choice: HostChoice, id: string)
    ensures BuildApproval(click) == Ok(id) <==>
      && (click.action == "approve" || click.action == "deny") && |id| <= 100
      && id == "kenny-approval:" + click.action + ":" + click.approval
    ensures BuildHost(choice) == Ok(id) <==>
      && choice.request != "" && ':' !in choice.request && choice.agent != "" && |id| <= 100
      && id == "kenny-host:" + choice.request + ":" + choice.agent
  {
    JoinThree("kenny-approval", click.action, click.approval);
    JoinThree("kenny-host", choice.request, choice.agent);
    assert "kenny-approval" + ":" == "kenny-approval:" && "kenny-host" + ":" == "kenny-host:";
  }

  lemma JoinThree(a: string, b: string, c: string)
    ensures Join([a, b, c], ':') == a + ":" + b + ":" + c
  {
    assert [a, b, c][1..] == [b, c] && [b, c][1..] == [c];
    assert Join([b, c], ':') == b + [':'] + c;
  }

  lemma ThreeParts(a: string, b: string, c: string)
    requires ':' !in a && ':' !in b
    ensures SplitMax(Join([a, b, c], ':'), ':', 2) == [a, b, c]
  {
    assert [a, b, c][1..] == [b, c] && [b, c][1..] == [c];
    SplitMaxAtSep(a, b + [':'] + c, ':', 1);
    SplitMaxAtSep(b, c, ':', 0);
    assert Join([b, c], ':') == b + [':'] + c;
  }

  lemma {:induction false} ThreePartsBack(id: string)
    requires |SplitMax(id, ':', 2)| == 3
    ensures var parts := SplitMax(id, ':', 2); id == Join([parts[0], parts[1], parts[2]], ':')
  {
    var parts := SplitMax(id, ':', 2);
    assert parts == [parts[0], parts[1], parts[2]];
    JoinSplitMax(id, ':', 2);
  }

  /**
   An identifier of at most 100 characters reads as a click exactly when the builder makes it from
   that click, apart from the one thing the builder lets through: an empty approval id.
   */
  lemma ApprovalRoundTrip(choice: ApprovalAction, id: string)
    ensures ParseApproval(id) == Some(choice) && |id| <= LIMIT <==>
      BuildApproval(choice) == Ok(id) && choice.approval != ""
  {
    if BuildApproval(choice) == Ok(id) {
      ThreeParts(APPROVAL, choice.action, choice.approval);
    }
    if ParseApproval(id) == Some(choice) {
      ThreePartsBack(id);
    }
  }

  /** An agent id may hold separators and still comes back whole. */
  lemma HostRoundTrip(choice: HostChoice, id: string)
    ensures ParseHost(id) == Some(choice) && |id| <= LIMIT <==> BuildHost(choice) == Ok(id)
  {
    if BuildHost(choice) == Ok(id) {
      ThreeParts(HOST, choice.request, choice.agent);
    }
    if ParseHost(id) == Some(choice) {
      ThreePartsBack(id);
    }
  }

  lemma {:induction false} BuiltParts(choice: ApprovalAction, id: string)
    requires BuildApproval(choice) == Ok(id)
    ensures SplitMax(id, ':', 2) == [APPROVAL, choice.action, choice.approval]
  {
    ThreeParts(APPROVAL, choice.action, choice.approval);
  }

  lemma BuiltOnce(a: ApprovalAction, b: ApprovalAction, id: string)
    requires BuildApproval(a) == Ok(id) && BuildApproval(b) == Ok(id)
    ensures a == b
  {
    BuiltParts(a, id);
    BuiltParts(b, id);
    var parts := SplitMax(id, ':', 2);
    assert parts[1] == a.action == b.action && parts[2] == a.approval == b.approval;
  }

  /** Different clicks never share an identifier, and neither kind of card can be read as the other. */
  lemma IdsAreUnambiguous(a: ApprovalAction, b: HostChoice, id: string)
    requires BuildApproval(a) == Ok(id)
    ensures ParseHost(id) == None && BuildHost(b) != Ok(id)
    ensures forall a' :: BuildApproval(a') == Ok(id) ==> a' == a
  {
    BuiltParts(a, id);
    HostRoundTrip(b, id);
    forall a' | BuildApproval(a') == Ok(id)
      ensures a' == a
    {
      BuiltOnce(a', a, id);
    }
  }

  /** The builder makes a button the parser refuses. */
  lemma EmptyApprovalIsLost()
    ensures exists id :: BuildApproval(ApprovalAction("deny", "")) == Ok(id) && ParseApproval(id) == None
  {
    var choice := ApprovalAction("deny", "");
    var id := Join([APPROVAL, "deny", ""], ':');
    assert [APPROVAL, "deny", ""][1..] == ["deny", ""] && ["deny", ""][1..] == [""];
    assert id == APPROVAL + [':'] + ("deny" + [':'] + "") by {
      assert Join(["deny", ""], ':') == "deny" + [':'] + "";
    }
    assert BuildApproval(choice) == Ok(id);
    ThreeParts(APPROVAL, "deny", "");
  }
}
