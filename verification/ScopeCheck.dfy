/** agents/base/tool_registry.py and policy/rego/nhi/scope_check.rego: two checks of the same
    grant, one by set membership and one by substring search. */
module ScopeCheck {
  import opened Text

  // ------------------------------------------------------------------ catalogues

  const ACTION_SCOPE_MAP: map<string, string> := map[
    "s3:ListBuckets" := "cloud:s3:list",
    "s3:GetObject" := "cloud:s3:read",
    "s3:PutObject" := "cloud:s3:write",
    "s3:DeleteObject" := "cloud:s3:delete",
    "s3:DeleteBucket" := "cloud:s3:delete",
    "ec2:DescribeInstances" := "cloud:ec2:describe",
    "ec2:DescribeSecurityGroups" := "cloud:ec2:describe",
    "ec2:TerminateInstances" := "cloud:ec2:terminate",
    "ec2:StartInstances" := "cloud:ec2:start",
    "iam:ListRoles" := "cloud:iam:read",
    "iam:CreateRole" := "cloud:iam:create-role",
    "iam:AttachRolePolicy" := "cloud:iam:create-role",
    "iam:CreateUser" := "cloud:iam:write",
    "iam:DeleteRole" := "cloud:iam:write",
    "securityhub:GetFindings" := "cloud:securityhub:read",
    "guardduty:ListFindings" := "cloud:guardduty:read",
    "config:DescribeComplianceByResource" := "cloud:config:read",
    "cloudtrail:LookupEvents" := "cloud:cloudtrail:read"]

  datatype RiskLevel = Low | Medium | High
  datatype ToolSpec = ToolSpec(name: string, action: string, requiredScope: string, risk: RiskLevel, destructive: bool)

  const TOOL_CATALOG: map<string, ToolSpec> := map[
    "s3_list_buckets" := ToolSpec("List S3 Buckets", "s3:ListBuckets", "cloud:s3:list", Low, false),
    "s3_get_object" := ToolSpec("Get S3 Object", "s3:GetObject", "cloud:s3:read", Low, false),
    "s3_put_object" := ToolSpec("Put S3 Object", "s3:PutObject", "cloud:s3:write", Medium, false),
    "s3_delete_object" := ToolSpec("Delete S3 Object", "s3:DeleteObject", "cloud:s3:delete", High, true),
    "s3_delete_bucket" := ToolSpec("Delete S3 Bucket", "s3:DeleteBucket", "cloud:s3:delete", High, true),
    "ec2_describe_instances" :=
      ToolSpec("Describe EC2 Instances", "ec2:DescribeInstances", "cloud:ec2:describe", Low, false),
    "ec2_describe_security_groups" :=
      ToolSpec("Describe Security Groups", "ec2:DescribeSecurityGroups", "cloud:ec2:describe", Low, false),
    "ec2_terminate_instance" :=
      ToolSpec("Terminate EC2 Instance", "ec2:TerminateInstances", "cloud:ec2:terminate", High, true),
    "iam_list_roles" := ToolSpec("List IAM Roles", "iam:ListRoles", "cloud:iam:read", Low, false),
    "iam_create_role" := ToolSpec("Create IAM Role", "iam:CreateRole", "cloud:iam:create-role", High, false),
    "securityhub_get_findings" :=
      ToolSpec("Get Security Findings", "securityhub:GetFindings", "cloud:securityhub:read", Low, false)]

  /** Every scope the policy knows. */
  const SCOPES: seq<string> := [
    "cloud:s3:list", "cloud:s3:read", "cloud:s3:write", "cloud:s3:delete",
    "cloud:ec2:describe", "cloud:ec2:terminate", "cloud:ec2:start",
    "cloud:iam:read", "cloud:iam:create-role", "cloud:iam:write",
    "cloud:securityhub:read", "cloud:guardduty:read", "cloud:config:read", "cloud:cloudtrail:read"]

  // ------------------------------------------------------------------ the two checks

  predicate OccursAt(s: string, sub: string, i: int) {
    0 <= i && i + |sub| <= |s| && s[i..i + |sub|] == sub
  }

  /** Rego's `contains`. */
  ghost predicate Contains(s: string, sub: string) {
    exists i :: OccursAt(s, sub, i)
  }

  /** The `scope` claim of section 3.3 of RFC 6749: tokens separated by single spaces. */
  function Join(tokens: seq<string>): string {
    if tokens == [] then "" else if |tokens| == 1 then tokens[0] else tokens[0] + " " + Join(tokens[1..])
  }

  /** `action_in_scope`: the required scope occurs in the claim text, or is in the claim array. */
  ghost predicate ActionInScope(action: string, scope: Option<string>, scopes: seq<string>) {
    && action in ACTION_SCOPE_MAP
    && var required := ACTION_SCOPE_MAP[action];
       (scope.Some? && Contains(scope.value, required)) || required in scopes
  }

  /** `ToolRegistry`: the part of the catalogue whose scopes were granted. */
  function Registry(granted: seq<string>): map<string, ToolSpec> {
    map tool | tool in TOOL_CATALOG && TOOL_CATALOG[tool].requiredScope in granted :: TOOL_CATALOG[tool]
  }

  predicate Available(granted: seq<string>, tool: string) {
    tool in Registry(granted)
  }

  // ------------------------------------------------------- substring search over a claim

  lemma OccurrenceLetters(s: string, sub: string, i: int)
    requires OccursAt(s, sub, i)
    ensures forall k | i <= k < i + |sub| :: s[k] in sub
  {
  }

  lemma ContainsInParts(a: string, b: string, sub: string)
    requires ' ' !in sub
    ensures Contains(a + " " + b, sub) <==> Contains(a, sub) || Contains(b, sub)
  {
    var s := a + " " + b;
    if i :| OccursAt(s, sub, i) {
      OccurrenceLetters(s, sub, i);
      assert s[|a|] == ' ';
      if i + |sub| <= |a| {
        assert a[i..i + |sub|] == s[i..i + |sub|];
        assert OccursAt(a, sub, i);
      } else if i > |a| {
        var m := |a| + 1;
        assert s[m..] == b;
        assert s[m..][i - m..i - m + |sub|] == s[i..i + |sub|];
        assert OccursAt(b, sub, i - m);
      }
    }
    if i :| OccursAt(a, sub, i) {
      assert s[i..i + |sub|] == a[i..i + |sub|];
      assert OccursAt(s, sub, i);
    }
    if i :| OccursAt(b, sub, i) {
      var m := |a| + 1;
      assert s[m..] == b;
      assert s[m + i..m + i + |sub|] == s[m..][i..i + |sub|];
      assert OccursAt(s, sub, m + i);
    }
  }

  /** Searching the whole claim is searching its tokens one by one: a match never spans two. */
  lemma {:induction false} ContainsIffSomeToken(tokens: seq<string>, sub: string)
    requires sub != "" && ' ' !in sub
    ensures Contains(Join(tokens), sub) <==> exists t :: t in tokens && Contains(t, sub)
  {
    if |tokens| > 1 {
      ContainsInParts(tokens[0], Join(tokens[1..]), sub);
      ContainsIffSomeToken(tokens[1..], sub);
      assert tokens == [tokens[0]] + tokens[1..];
    } else if |tokens| == 1 {
      assert tokens[0] in tokens;
    }
  }

  lemma ContainsItself(s: string)
    ensures Contains(s, s)
  {
    assert OccursAt(s, s, 0);
  }

  /** For any claim at all: the search agrees with membership exactly when the scope is granted
      or no token has it as a part. */
  lemma SearchAgreesWithMembershipIff(tokens: seq<string>, sub: string)
    requires sub != "" && ' ' !in sub
    ensures (Contains(Join(tokens), sub) <==> sub in tokens)
       <==> (sub in tokens || forall t | t in tokens :: !Contains(t, sub))
  {
    ContainsIffSomeToken(tokens, sub);
    ContainsItself(sub);
  }

  // -------------------------------------------------------------- the known scopes

  /** Starts with "cloud:" and has one more colon, at `p`. */
  ghost predicate Shape(s: string, p: int) {
    && 5 < p < |s| && s[..6] == "cloud:" && s[p] == ':'
    && forall k | 0 <= k < |s| :: s[k] == ':' ==> k == 5 || k == p
  }

  /** Four characters that tell the known scopes apart. */
  function ByLetters(a: char, b: char, c: char, d: char): string {
    if a == 's' && b == '3' then
      if c == 'l' then "cloud:s3:list" else if c == 'r' then "cloud:s3:read"
      else if c == 'w' then "cloud:s3:write" else "cloud:s3:delete"
    else if a == 'e' then
      if d == 'd' then "cloud:ec2:describe" else if d == 't' then "cloud:ec2:terminate" else "cloud:ec2:start"
    else if a == 'i' then
      if d == 'r' then "cloud:iam:read" else if d == 'c' then "cloud:iam:create-role" else "cloud:iam:write"
    else if a == 's' then "cloud:securityhub:read"
    else if a == 'g' then "cloud:guardduty:read"
    else if b == 'o' then "cloud:config:read"
    else "cloud:cloudtrail:read"
  }

  ghost predicate Known(s: string) {
    |s| > 10 && s == ByLetters(s[6], s[7], s[9], s[10]) && ' ' !in s && exists p :: Shape(s, p)
  }

  lemma S3ScopesKnown(s: string)
    requires s in {"cloud:s3:list", "cloud:s3:read", "cloud:s3:write", "cloud:s3:delete"}
    ensures Known(s)
  {
    assert Shape(s, 8);
  }

  lemma Ec2ScopesKnown(s: string)
    requires s in {"cloud:ec2:describe", "cloud:ec2:terminate", "cloud:ec2:start"}
    ensures Known(s)
  {
    assert Shape(s, 9);
  }

  lemma IamScopesKnown(s: string)
    requires s in {"cloud:iam:read", "cloud:iam:create-role", "cloud:iam:write"}
    ensures Known(s)
  {
    assert Shape(s, 9);
  }

  lemma SecurityHubScopeKnown()
    ensures Known("cloud:securityhub:read")
  {
    assert Shape("cloud:securityhub:read", 17);
  }

  lemma GuardDutyScopeKnown()
    ensures Known("cloud:guardduty:read")
  {
    assert Shape("cloud:guardduty:read", 15);
  }

  lemma ConfigScopeKnown()
    ensures Known("cloud:config:read")
  {
    assert Shape("cloud:config:read", 12);
  }

  lemma CloudTrailScopeKnown()
    ensures Known("cloud:cloudtrail:read")
  {
    assert Shape("cloud:cloudtrail:read", 16);
  }

  lemma ScopesAreKnown(s: string)
    requires s in SCOPES
    ensures Known(s)
  {
    var i :| 0 <= i < |SCOPES| && SCOPES[i] == s;
    if i < 4 {
      S3ScopesKnown(s);
    } else if i < 7 {
      Ec2ScopesKnown(s);
    } else if i < 10 {
      IamScopesKnown(s);
    } else {
      SecurityHubScopeKnown();
      GuardDutyScopeKnown();
      ConfigScopeKnown();
      CloudTrailScopeKnown();
    }
  }

  /** Inside a text of this shape, another one can only be at the front. */
  lemma ShapesAlign(s: string, p: int, t: string, q: int, i: int)
    requires Shape(s, p) && Shape(t, q) && OccursAt(s, t, i)
    ensures i == 0
  {
    assert forall k | 0 <= k < |t| :: t[k] == s[i..i + |t|][k] == s[i + k];
    assert t[5] == t[..6][5] == ':' && s[i + 5] == ':';
    assert t[q] == ':' && s[i + q] == ':';
  }

  lemma LettersTell(s: string, t: string)
    requires Known(s) && Known(t) && |t| <= |s| && s[..|t|] == t
    ensures s == t
  {
    assert forall k | 0 <= k < |t| :: t[k] == s[..|t|][k] == s[k];
    var a, b, c, d := s[6], s[7], s[9], s[10];
    assert s == ByLetters(a, b, c, d) && t == ByLetters(a, b, c, d);
  }

  /** No known scope occurs inside a different one. */
  lemma ScopesDoNotNest(s: string, t: string)
    requires Known(s) && Known(t) && Contains(s, t)
    ensures s == t
  {
    var i :| OccursAt(s, t, i);
    var p :| Shape(s, p);
    var q :| Shape(t, q);
    ShapesAlign(s, p, t, q, i);
    LettersTell(s, t);
  }

  // ------------------------------------------------------------- registry against policy

  lemma S3ReadToolsAgree(tool: string)
    requires tool in {"s3_list_buckets", "s3_get_object", "s3_put_object"}
    ensures Agrees(tool)
  {
  }

  lemma S3DeleteToolsAgree(tool: string)
    requires tool in {"s3_delete_object", "s3_delete_bucket"}
    ensures Agrees(tool)
  {
  }

  lemma Ec2ToolsAgree(tool: string)
    requires tool in {"ec2_describe_instances", "ec2_describe_security_groups", "ec2_terminate_instance"}
    ensures Agrees(tool)
  {
  }

  lemma OtherToolsAgree(tool: string)
    requires tool in {"iam_list_roles", "iam_create_role", "securityhub_get_findings"}
    ensures Agrees(tool)
  {
  }

  /** The catalogue and the policy ask for the same scope for the tool's action. */
  ghost predicate Agrees(tool: string) {
    && tool in TOOL_CATALOG
    && var spec := TOOL_CATALOG[tool];
       && spec.action in ACTION_SCOPE_MAP && ACTION_SCOPE_MAP[spec.action] == spec.requiredScope
       && spec.requiredScope in SCOPES
  }

  lemma CatalogueAgreesWithPolicy(tool: string)
    requires tool in TOOL_CATALOG
    ensures Agrees(tool)
  {
    if tool in {"s3_list_buckets", "s3_get_object", "s3_put_object"} {
      S3ReadToolsAgree(tool);
    } else if tool in {"s3_delete_object", "s3_delete_bucket"} {
      S3DeleteToolsAgree(tool);
    } else if tool in {"ec2_describe_instances", "ec2_describe_security_groups", "ec2_terminate_instance"} {
      Ec2ToolsAgree(tool);
    } else {
      OtherToolsAgree(tool);
    }
  }

  /** For a claim made of known scopes, as text or as an array, a tool is in the registry exactly
      when the policy finds its action in scope. */
  lemma RegistryAgreesWithPolicy(granted: seq<string>, tool: string)
    requires tool in TOOL_CATALOG && forall g | g in granted :: g in SCOPES
    ensures Available(granted, tool) <==> ActionInScope(TOOL_CATALOG[tool].action, Some(Join(granted)), [])
    ensures Available(granted, tool) <==> ActionInScope(TOOL_CATALOG[tool].action, None, granted)
  {
    CatalogueAgreesWithPolicy(tool);
    var required := TOOL_CATALOG[tool].requiredScope;
    ScopesAreKnown(required);
    forall g | g in granted && Contains(g, required) ensures g == required {
      ScopesAreKnown(g);
      ScopesDoNotNest(g, required);
    }
    SearchAgreesWithMembershipIff(granted, required);
  }

  /** With other tokens in the claim the policy can accept what the registry refuses. */
  lemma SearchAcceptsLongerToken()
    ensures !Available(["cloud:s3:readonly"], "s3_get_object")
    ensures ActionInScope("s3:GetObject", Some(Join(["cloud:s3:readonly"])), [])
  {
    S3ReadToolsAgree("s3_get_object");
    assert "cloud:s3:readonly"[0..13] == "cloud:s3:read";
    assert OccursAt("cloud:s3:readonly", "cloud:s3:read", 0);
  }
}
