/**
 * The policy-detach bot: find the policies of a function's execution role that
 * allow actions on wildcard resources, and detach each of them from the role.
 *
 * The IAM call `detach_role_policy` is foreign: its outcome for each policy ARN
 * is an input (`respond`), and the requests the bot makes are returned so that
 * their number, order and arguments can be stated.
 */
module LambdaDetachBlanketPermissions {
  import opened Common
  import opened Lists
  import opened PyText

  /** A statement's `Resource` value: one ARN pattern or a list of them. */
  datatype Resource = Single(pattern: string) | Multiple(patterns: seq<string>)

  /** One entry of a policy document's `Statement` list; `resource` is None when the key is absent. */
  datatype Statement = Statement(effect: string, resource: Option<Resource>)

  /** An entry of `combinedPolicies`: its `id` (the policy ARN) and the statements of its document. */
  datatype Policy = Policy(id: string, statements: seq<Statement>)

  /** The entity's `executionRole`. */
  datatype ExecutionRole = ExecutionRole(name: string, combinedPolicies: seq<Policy>)

  /** `str(Statement['Resource'])`: a string is its own text, a list is written as Python writes it. */
  function ResourceText(r: Resource): string
  {
    match r
    case Single(p) => p
    case Multiple(ps) => ListRepr(ps)
  }

  /** The per-statement test of `get_admin_policies`: an `Allow` with a `Resource` whose text holds a `*`. */
  predicate IsBlanketAllow(st: Statement)
  {
    st.effect == "Allow" && st.resource.Some? && '*' in ResourceText(st.resource.value)
  }

  /** The wildcard test read element by element: some pattern of the resource contains `*`. */
  predicate MentionsWildcard(r: Resource)
  {
    match r
    case Single(p) => '*' in p
    case Multiple(ps) => exists i :: 0 <= i < |ps| && '*' in ps[i]
  }

  /** Testing the text of `Resource` for `*` is testing each of its patterns for `*`. */
  lemma WildcardTextTest(r: Resource)
    ensures '*' in ResourceText(r) <==> MentionsWildcard(r)
  {
    if r.Multiple? {
      StarInListRepr(r.patterns);
    }
  }

  /** `"*"` is searched as a substring: a pattern ending in a slash and a star, alone or in a list, qualifies. */
  lemma SubstringWildcard(prefix: string, others: seq<string>)
    ensures IsBlanketAllow(Statement("Allow", Some(Single(prefix + "/*"))))
    ensures IsBlanketAllow(Statement("Allow", Some(Multiple(others + [prefix + "/*"]))))
  {
    var pattern := prefix + "/*";
    assert pattern[|pattern| - 1] == '*';
    WildcardTextTest(Multiple(others + [pattern]));
    assert (others + [pattern])[|others|] == pattern;
  }

  /** The statements of the policy that pass the test. */
  function BlanketAllows(p: Policy): seq<Statement>
  {
    Filter(IsBlanketAllow, p.statements)
  }

  /** The policy has at least one statement that passes the test. */
  predicate HasBlanketAllow(p: Policy)
  {
    BlanketAllows(p) != []
  }

  lemma HasBlanketAllowMeans(p: Policy)
    ensures HasBlanketAllow(p) <==> exists k :: 0 <= k < |p.statements| && IsBlanketAllow(p.statements[k])
  {
    if HasBlanketAllow(p) {
      var st := BlanketAllows(p)[0];
      FilterMembership(IsBlanketAllow, p.statements, st);
      var k :| 0 <= k < |p.statements| && p.statements[k] == st;
    }
    if exists k :: 0 <= k < |p.statements| && IsBlanketAllow(p.statements[k]) {
      var k :| 0 <= k < |p.statements| && IsBlanketAllow(p.statements[k]);
      FilterMembership(IsBlanketAllow, p.statements, p.statements[k]);
    }
  }

  /** What the generator adds to `arn_list` for one policy: its id, once per qualifying statement. */
  function PolicyMatches(p: Policy): seq<string>
  {
    Repeat(p.id, |BlanketAllows(p)|)
  }

  /** `arn_list` once the loop has run over `ps`, before repeats are dropped. */
  function Collected(ps: seq<Policy>): seq<string>
  {
    ConcatMap(PolicyMatches, ps)
  }

  /** The list `get_admin_policies` returns for the role's combined policies. */
  function AdminPolicies(ps: seq<Policy>): seq<string>
  {
    Dedup(Collected(ps))
  }

  /** An id is collected exactly when some policy with that id has a qualifying statement. */
  lemma CollectedMembership(ps: seq<Policy>, id: string)
    ensures id in Collected(ps) <==> exists i :: 0 <= i < |ps| && ps[i].id == id && HasBlanketAllow(ps[i])
  {
    ConcatMapMembership(PolicyMatches, ps, id);
    forall i | 0 <= i < |ps|
      ensures id in PolicyMatches(ps[i]) <==> ps[i].id == id && HasBlanketAllow(ps[i])
    {
      RepeatMembership(ps[i].id, |BlanketAllows(ps[i])|, id);
    }
  }

  /**
   * A policy's id is in the result exactly when one of the role's policies with
   * that id has an `Allow` statement with a `Resource` whose text holds a `*`;
   * the result holds no id twice.
   */
  lemma AdminPoliciesMembership(ps: seq<Policy>, id: string)
    ensures id in AdminPolicies(ps) <==>
              exists i, k :: 0 <= i < |ps| && 0 <= k < |ps[i].statements| &&
                             ps[i].id == id && IsBlanketAllow(ps[i].statements[k])
    ensures Distinct(AdminPolicies(ps))
  {
    CollectedMembership(ps, id);
    DedupMembership(Collected(ps), id);
    DedupSpec(Collected(ps));
    if exists i :: 0 <= i < |ps| && ps[i].id == id && HasBlanketAllow(ps[i]) {
      var i :| 0 <= i < |ps| && ps[i].id == id && HasBlanketAllow(ps[i]);
      HasBlanketAllowMeans(ps[i]);
    }
    if exists i, k :: 0 <= i < |ps| && 0 <= k < |ps[i].statements| &&
                      ps[i].id == id && IsBlanketAllow(ps[i].statements[k]) {
      var i, k :| 0 <= i < |ps| && 0 <= k < |ps[i].statements| &&
                  ps[i].id == id && IsBlanketAllow(ps[i].statements[k]);
      HasBlanketAllowMeans(ps[i]);
    }
  }

  /**
   * Result order is first-occurrence order over the policies: the result for the
   * first n policies is a prefix of the result for all of them, and within the
   * collected ids every kept id first occurs before the ids kept after it.
   */
  lemma AdminPoliciesOrder(ps: seq<Policy>, n: nat)
    requires n <= |ps|
    ensures |AdminPolicies(ps[..n])| <= |AdminPolicies(ps)|
    ensures AdminPolicies(ps)[..|AdminPolicies(ps[..n])|] == AdminPolicies(ps[..n])
    ensures forall i, j :: 0 <= i < j < |AdminPolicies(ps)| ==>
              FirstIndex(Collected(ps), AdminPolicies(ps)[i]) < FirstIndex(Collected(ps), AdminPolicies(ps)[j])
  {
    assert ps == ps[..n] + ps[n..];
    ConcatMapAppend(PolicyMatches, ps[..n], ps[n..]);
    DedupExtends(Collected(ps[..n]), Collected(ps[n..]));
    DedupFirstOccurrenceOrder(Collected(ps));
  }

  /**
   * A statement that fails the test, such as a `Deny` with `Resource: "*"` or an
   * `Allow` without a `Resource` key, changes nothing wherever it is inserted.
   */
  lemma NonQualifyingStatementIgnored(ps: seq<Policy>, i: nat, k: nat, st: Statement)
    requires i < |ps| && k <= |ps[i].statements|
    requires !IsBlanketAllow(st)
    ensures var sts := ps[i].statements;
            AdminPolicies(ps[i := Policy(ps[i].id, sts[..k] + [st] + sts[k..])]) == AdminPolicies(ps)
  {
    var sts := ps[i].statements;
    FilterInsertRejected(IsBlanketAllow, sts, k, st);
    ConcatMapReplace(PolicyMatches, ps, i, Policy(ps[i].id, sts[..k] + [st] + sts[k..]));
  }

  /** A `Deny` statement never selects its policy, whatever its `Resource`. */
  lemma DenyNeverSelects(ps: seq<Policy>, i: nat, k: nat, resource: Option<Resource>)
    requires i < |ps| && k <= |ps[i].statements|
    ensures var sts := ps[i].statements;
            var st := Statement("Deny", resource);
            AdminPolicies(ps[i := Policy(ps[i].id, sts[..k] + [st] + sts[k..])]) == AdminPolicies(ps)
  {
    NonQualifyingStatementIgnored(ps, i, k, Statement("Deny", resource));
  }

  /** An `Allow` statement without a `Resource` key never selects its policy. */
  lemma MissingResourceNeverSelects(ps: seq<Policy>, i: nat, k: nat)
    requires i < |ps| && k <= |ps[i].statements|
    ensures var sts := ps[i].statements;
            var st := Statement("Allow", None);
            AdminPolicies(ps[i := Policy(ps[i].id, sts[..k] + [st] + sts[k..])]) == AdminPolicies(ps)
  {
    NonQualifyingStatementIgnored(ps, i, k, Statement("Allow", None));
  }

  /** One more statement adds the policy's id once if it passes the test, and nothing otherwise. */
  lemma StatementStep(p: Policy, k: nat)
    requires k < |p.statements|
    ensures var sts := p.statements;
            Repeat(p.id, |Filter(IsBlanketAllow, sts[..k + 1])|) ==
              Repeat(p.id, |Filter(IsBlanketAllow, sts[..k])|) + (if IsBlanketAllow(sts[k]) then [p.id] else [])
  {
    assert p.statements[..k + 1][..k] == p.statements[..k];
  }

  /** One more policy adds what that policy matches. */
  lemma PolicyStep(ps: seq<Policy>, i: nat)
    requires i < |ps|
    ensures Collected(ps[..i + 1]) == Collected(ps[..i]) + Repeat(ps[i].id, |Filter(IsBlanketAllow, ps[i].statements)|)
  {
    assert ps[..i + 1][..i] == ps[..i];
  }

  /** `get_admin_policies`: collect the qualifying ids policy by policy, then drop repeats. */
  method GetAdminPolicies(role: ExecutionRole) returns (arns: seq<string>)
    ensures arns == AdminPolicies(role.combinedPolicies)
    ensures Distinct(arns)
    ensures role.combinedPolicies == [] ==> arns == []
  {
    var policies := role.combinedPolicies;
    var arnList: seq<string> := [];
    for i := 0 to |policies|
      invariant arnList == Collected(policies[..i])
    {
      var p := policies[i];
      ghost var before := arnList;
      for k := 0 to |p.statements|
        invariant arnList == before + Repeat(p.id, |Filter(IsBlanketAllow, p.statements[..k])|)
      {
        StatementStep(p, k);
        if IsBlanketAllow(p.statements[k]) {
          arnList := arnList + [p.id];
        }
      }
      assert p.statements[..|p.statements|] == p.statements;
      PolicyStep(policies, i);
    }
    assert policies[..|policies|] == policies;
    arns := RemoveDuplicates(arnList);
    DedupSpec(arnList);
  }

  /** The outcome of one `detach_role_policy` call: success, or a `ClientError` whose text is `error`. */
  datatype DetachOutcome = Detached | Failed(error: string)

  /** The arguments of one `detach_role_policy` call. */
  datatype DetachRequest = DetachRequest(roleName: string, policyArn: string)

  /** A line of `text_output`: the note about one detached policy, or the error line of a failure. */
  datatype Line = DetachedPolicy(policyArn: string, roleName: string) | Error(error: string)

  /** The note names the policy by the last `/` segment of its ARN. */
  function LineText(line: Line): string
  {
    match line
    case DetachedPolicy(arn, roleName) =>
      " detach policy: " + LastSegment(arn) + " from lambda role: " + roleName
    case Error(e) => UnexpectedError(e)
  }

  /** The text made of the lines, in order. */
  function Render(lines: seq<Line>): string
  {
    ConcatMap(LineText, lines)
  }

  /** The lines that make up `text_output` once the loop has handled `arns` in order. */
  function OutputLines(roleName: string, arns: seq<string>, respond: string -> DetachOutcome): seq<Line>
  {
    if arns == [] then []
    else
      var arn := arns[|arns| - 1];
      match respond(arn)
      case Detached => OutputLines(roleName, arns[..|arns| - 1], respond) + [DetachedPolicy(arn, roleName)]
      case Failed(e) => [Error(e)]
  }

  /** One more detach adds its note, or leaves only its error line. */
  lemma OutputLinesStep(roleName: string, arns: seq<string>, i: nat, respond: string -> DetachOutcome)
    requires i < |arns|
    ensures OutputLines(roleName, arns[..i + 1], respond) ==
              match respond(arns[i])
              case Detached => OutputLines(roleName, arns[..i], respond) + [DetachedPolicy(arns[i], roleName)]
              case Failed(e) => [Error(e)]
  {
    assert arns[..i + 1][..i] == arns[..i];
  }

  /** `text_output` once the loop of `run_action` has handled `arns` in order. */
  function Report(roleName: string, arns: seq<string>, respond: string -> DetachOutcome): string
  {
    Render(OutputLines(roleName, arns, respond))
  }

  /** The position of the last failed detach, if any. */
  function LastFailure(arns: seq<string>, respond: string -> DetachOutcome): (k: Option<nat>)
    ensures k.Some? ==> k.value < |arns| && respond(arns[k.value]).Failed? &&
                        forall j :: k.value < j < |arns| ==> respond(arns[j]).Detached?
    ensures k.None? ==> forall j :: 0 <= j < |arns| ==> respond(arns[j]).Detached?
  {
    if arns == [] then None
    else if respond(arns[|arns| - 1]).Failed? then Some(|arns| - 1)
    else LastFailure(arns[..|arns| - 1], respond)
  }

  /** One detach note per ARN, in order. */
  function DetachedNotes(roleName: string, arns: seq<string>): (lines: seq<Line>)
    ensures |lines| == |arns|
    ensures forall i :: 0 <= i < |arns| ==> lines[i] == DetachedPolicy(arns[i], roleName)
  {
    seq(|arns|, i requires 0 <= i < |arns| => DetachedPolicy(arns[i], roleName))
  }

  lemma DetachedNotesSnoc(roleName: string, arns: seq<string>, arn: string)
    ensures DetachedNotes(roleName, arns + [arn]) == DetachedNotes(roleName, arns) + [DetachedPolicy(arn, roleName)]
  {
  }

  /**
   * What the loop should leave: the error line of the last failed detach
   * (nothing when none failed) followed by a note for each detach after it.
   */
  function ExpectedLines(roleName: string, arns: seq<string>, respond: string -> DetachOutcome): seq<Line>
  {
    match LastFailure(arns, respond)
    case None => DetachedNotes(roleName, arns)
    case Some(k) => [Error(respond(arns[k]).error)] + DetachedNotes(roleName, arns[k + 1..])
  }

  /**
   * The fold of `run_action` leaves exactly the expected lines: a failure
   * discards every line written before it, and each later success adds its note.
   */
  lemma {:induction false} ReportShape(roleName: string, arns: seq<string>, respond: string -> DetachOutcome)
    ensures OutputLines(roleName, arns, respond) == ExpectedLines(roleName, arns, respond)
  {
    if arns != [] {
      var init, arn := arns[..|arns| - 1], arns[|arns| - 1];
      if respond(arn).Detached? {
        ReportShape(roleName, init, respond);
        var f := LastFailure(init, respond);
        assert LastFailure(arns, respond) == f;
        assert arns == init + [arn];
        if f.None? {
          DetachedNotesSnoc(roleName, init, arn);
        } else {
          var after := init[f.value + 1..];
          assert arns[f.value + 1..] == after + [arn];
          DetachedNotesSnoc(roleName, after, arn);
        }
      } else {
        assert DetachedNotes(roleName, arns[|arns|..]) == [];
      }
    }
  }

  /** No failure at all: one note per policy, in the order of the list. */
  lemma AllDetached(roleName: string, arns: seq<string>, respond: string -> DetachOutcome)
    requires forall j :: 0 <= j < |arns| ==> respond(arns[j]).Detached?
    ensures OutputLines(roleName, arns, respond) == DetachedNotes(roleName, arns)
  {
    ReportShape(roleName, arns, respond);
  }

  /** A failed detach leaves only its error line, whatever was written before it. */
  lemma FailureOverwrites(roleName: string, arns: seq<string>, i: nat, respond: string -> DetachOutcome)
    requires i < |arns| && respond(arns[i]).Failed?
    ensures Report(roleName, arns[..i + 1], respond) == UnexpectedError(respond(arns[i]).error)
  {
    var e := respond(arns[i]).error;
    assert arns[..i + 1][i] == arns[i];
    assert OutputLines(roleName, arns[..i + 1], respond) == [Error(e)];
    ConcatMapSnoc(LineText, [], Error(e));
  }

  /** The text opens with the first line's own opening: a space for a note, the error prefix for an error. */
  lemma RenderOpensWith(lines: seq<Line>)
    requires lines != []
    ensures |Render(lines)| >= 1
    ensures lines[0].DetachedPolicy? ==> Render(lines)[0] == ' '
    ensures lines[0].Error? ==> StartsWith(Render(lines), ErrorPrefix)
  {
    ConcatMapFirst(LineText, lines);
    var first, rest := LineText(lines[0]), Render(lines[1..]);
    if lines[0].Error? {
      UnexpectedErrorParts(lines[0].error);
      assert (first + rest)[..|ErrorPrefix|] == first[..|ErrorPrefix|];
    } else {
      assert first[0] == ' ';
    }
  }

  /** The text opens with `Unexpected error: ` exactly when some detach failed. */
  lemma ReportOpensWithError(roleName: string, arns: seq<string>, respond: string -> DetachOutcome)
    ensures StartsWith(Report(roleName, arns, respond), ErrorPrefix) <==> LastFailure(arns, respond).Some?
  {
    ReportShape(roleName, arns, respond);
    var lines := ExpectedLines(roleName, arns, respond);
    if lines != [] {
      RenderOpensWith(lines);
      assert ErrorPrefix[0] == 'U';
    }
  }

  /** One `detach_role_policy` request per ARN, in list order, each naming the role. */
  function Requests(roleName: string, arns: seq<string>): (requests: seq<DetachRequest>)
    ensures |requests| == |arns|
    ensures forall i :: 0 <= i < |arns| ==> requests[i] == DetachRequest(roleName, arns[i])
  {
    seq(|arns|, i requires 0 <= i < |arns| => DetachRequest(roleName, arns[i]))
  }

  lemma RequestsStep(roleName: string, arns: seq<string>, i: nat)
    requires i < |arns|
    ensures Requests(roleName, arns[..i + 1]) == Requests(roleName, arns[..i]) + [DetachRequest(roleName, arns[i])]
  {
  }

  /**
   * The loop of `run_action`: one detach request per ARN, in list order, naming
   * the role, whatever the earlier requests returned; the text is `Report` of
   * the outcomes.
   */
  method DetachEach(roleName: string, arns: seq<string>, respond: string -> DetachOutcome)
    returns (text: string, requests: seq<DetachRequest>)
    ensures requests == Requests(roleName, arns)
    ensures text == Report(roleName, arns, respond)
  {
    text := "";
    requests := [];
    ghost var lines: seq<Line> := [];
    for i := 0 to |arns|
      invariant requests == Requests(roleName, arns[..i])
      invariant lines == OutputLines(roleName, arns[..i], respond)
      invariant text == Render(lines)
    {
      var arn := arns[i];
      requests := requests + [DetachRequest(roleName, arn)];
      RequestsStep(roleName, arns, i);
      OutputLinesStep(roleName, arns, i, respond);
      match respond(arn) {
        case Detached =>
          var policyName := LastSegment(arn);
          var note := " detach policy: " + policyName + " from lambda role: " + roleName;
          text := text + note;
          ConcatMapSnoc(LineText, lines, DetachedPolicy(arn, roleName));
          lines := lines + [DetachedPolicy(arn, roleName)];
        case Failed(e) =>
          text := UnexpectedError(e);
          ConcatMapSnoc(LineText, [], Error(e));
          lines := [Error(e)];
      }
    }
    assert arns[..|arns|] == arns;
  }

  /** `run_action`: select the role's blanket-permission policies, then detach each of them. */
  method RunAction(role: ExecutionRole, respond: string -> DetachOutcome)
    returns (text: string, requests: seq<DetachRequest>)
    ensures var arns := AdminPolicies(role.combinedPolicies);
            requests == Requests(role.name, arns) && text == Report(role.name, arns, respond)
  {
    var arnList := GetAdminPolicies(role);
    text, requests := DetachEach(role.name, arnList, respond);
  }
}
