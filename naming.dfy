/**
 * Resource naming for the infrastructure stacks (infrastructure/lib/utils/naming.ts).
 * Both operations build a local list of parts step by step and join it; the methods
 * below do the same and are proved against functions that state the exact output.
 */
module Naming {
  import opened Wrappers
  import opened Js

  /** The options of a naming call; `service` is optional. */
  datatype NamingOptions = NamingOptions(service: Option<string>, resource: string, environment: string)

  const ProjectName: string := "job-finder"
  const ProjectId: string := "JobFinder"

  // ---------------------------------------------------------------------------
  // The string operations the id builder uses
  // ---------------------------------------------------------------------------

  /** `toUpperCase` of one character, for the ASCII letters. */
  function UpperAscii(c: char): char
  {
    if 'a' <= c <= 'z' then (c as int - 32) as char else c
  }

  /** `toUpperCase` of a string, character by character. */
  function Upper(s: string): (r: string)
    ensures |r| == |s|
    ensures forall k :: 0 <= k < |s| ==> r[k] == UpperAscii(s[k])
  {
    seq(|s|, k requires 0 <= k < |s| => UpperAscii(s[k]))
  }

  /** `s.charAt(0)`: the first character, or "" for the empty string. */
  function CharAt0(s: string): string
  {
    if s == "" then "" else s[..1]
  }

  /** `s.slice(1)`: everything after the first character. */
  function Slice1(s: string): string
  {
    if s == "" then "" else s[1..]
  }

  /** `s.replace(/-/g, '')`: s with every hyphen removed. */
  function RemoveHyphens(s: string): (r: string)
    ensures '-' !in r
    ensures |r| <= |s|
  {
    if s == "" then ""
    else (if s[0] == '-' then "" else [s[0]]) + RemoveHyphens(s[1..])
  }

  /** `s.charAt(0).toUpperCase() + s.slice(1)`, the environment part of an id. */
  function Capitalize(s: string): string
  {
    Upper(CharAt0(s)) + Slice1(s)
  }

  /** `s.charAt(0).toUpperCase() + s.slice(1).replace(/-/g, '')`, the service and resource parts. */
  function IdPart(s: string): string
  {
    Upper(CharAt0(s)) + RemoveHyphens(Slice1(s))
  }

  // ---------------------------------------------------------------------------
  // Specifications of the two outputs
  // ---------------------------------------------------------------------------

  /** The hyphen-joined resource name: project, environment, the service when given, the resource. */
  function ResourceName(options: NamingOptions): string
  {
    if Given(options.service)
    then ProjectName + "-" + options.environment + "-" + options.service.value + "-" + options.resource
    else ProjectName + "-" + options.environment + "-" + options.resource
  }

  /** The CDK id: project id, capitalised environment, service part when given, resource part. */
  function ResourceId(options: NamingOptions): string
  {
    if Given(options.service)
    then ProjectId + Capitalize(options.environment) + IdPart(options.service.value) + IdPart(options.resource)
    else ProjectId + Capitalize(options.environment) + IdPart(options.resource)
  }

  // ---------------------------------------------------------------------------
  // The operations
  // ---------------------------------------------------------------------------

  /** getResourceName: push the parts, then join them with '-'. */
  method GetResourceName(options: NamingOptions) returns (name: string)
    ensures name == ResourceName(options)
  {
    var parts := [ProjectName, options.environment];
    assert Join(parts, "-") == ProjectName + "-" + options.environment;
    if Given(options.service) {
      JoinPush(parts, options.service.value, "-");
      parts := parts + [options.service.value];
    }
    JoinPush(parts, options.resource, "-");
    parts := parts + [options.resource];
    name := Join(parts, "-");
  }

  /** getResourceId: push the capitalised parts, then join them with no separator. */
  method GetResourceId(options: NamingOptions) returns (id: string)
    ensures id == ResourceId(options)
  {
    var environmentPart := Capitalize(options.environment);
    var parts := [ProjectId, environmentPart];
    ghost var joined := ProjectId + environmentPart;
    JoinPairNoSeparator(ProjectId, environmentPart);
    if Given(options.service) {
      var servicePart := IdPart(options.service.value);
      JoinPushNoSeparator(parts, servicePart);
      parts := parts + [servicePart];
      joined := joined + servicePart;
    }
    var resourcePart := IdPart(options.resource);
    JoinPushNoSeparator(parts, resourcePart);
    parts := parts + [resourcePart];
    joined := joined + resourcePart;
    id := Join(parts, "");
  }

  lemma JoinPairNoSeparator(a: string, b: string)
    ensures Join([a, b], "") == a + b
  {
    assert [a, b][1..] == [b];
  }

  lemma JoinPushNoSeparator(parts: seq<string>, p: string)
    requires |parts| >= 1
    ensures Join(parts + [p], "") == Join(parts, "") + p
  {
    JoinPush(parts, p, "");
    assert Join(parts, "") + "" == Join(parts, "");
  }

  // ---------------------------------------------------------------------------
  // Properties
  // ---------------------------------------------------------------------------

  /** A resource name starts with the project and environment and ends with the resource. */
  lemma ResourceNameShape(options: NamingOptions)
    ensures StartsWith(ResourceName(options), ProjectName + "-" + options.environment + "-")
    ensures var name := ResourceName(options);
      |name| > |options.resource| && name[|name| - |options.resource|..] == options.resource
  {
  }

  /** An absent service and an empty service give the same name and the same id. */
  lemma EmptyServiceOmitted(environment: string, resource: string)
    ensures ResourceName(NamingOptions(Some(""), resource, environment))
         == ResourceName(NamingOptions(None, resource, environment))
    ensures ResourceId(NamingOptions(Some(""), resource, environment))
         == ResourceId(NamingOptions(None, resource, environment))
  {
  }

  /** Removing hyphens keeps every other character, each as often as before. */
  lemma {:induction false} RemoveHyphensKeepsOthers(s: string)
    ensures multiset(RemoveHyphens(s)) == multiset(s)['-' := 0]
  {
    if s != "" {
      RemoveHyphensKeepsOthers(s[1..]);
      assert s == [s[0]] + s[1..];
    }
  }

  /** A string without hyphens is left unchanged. */
  lemma {:induction false} RemoveHyphensNoop(s: string)
    requires '-' !in s
    ensures RemoveHyphens(s) == s
  {
    if s != "" {
      RemoveHyphensNoop(s[1..]);
    }
  }

  /** Removing hyphens distributes over concatenation, so the order of the kept characters is unchanged. */
  lemma {:induction false} RemoveHyphensAppend(a: string, b: string)
    ensures RemoveHyphens(a + b) == RemoveHyphens(a) + RemoveHyphens(b)
  {
    if a == "" {
      assert a + b == b;
    } else {
      assert (a + b)[0] == a[0];
      assert (a + b)[1..] == a[1..] + b;
      RemoveHyphensAppend(a[1..], b);
    }
  }

  /** Only the first character of the environment changes; its hyphens all stay. */
  lemma CapitalizeKeepsRest(s: string)
    ensures |Capitalize(s)| == |s|
    ensures |s| > 0 ==> Capitalize(s)[0] == UpperAscii(s[0])
    ensures forall k :: 1 <= k < |s| ==> Capitalize(s)[k] == s[k]
  {
  }

  /**
   * A service or resource part keeps its (upper-cased) first character, even a hyphen,
   * has no hyphen after it, and is empty exactly when the input is.
   */
  lemma IdPartShape(s: string)
    ensures IdPart(s) == "" <==> s == ""
    ensures s != "" ==> IdPart(s)[0] == UpperAscii(s[0])
    ensures s != "" && s[0] == '-' ==> IdPart(s)[0] == '-'
    ensures s != "" ==> '-' !in IdPart(s)[1..]
  {
    if s != "" {
      assert IdPart(s)[1..] == RemoveHyphens(s[1..]);
    }
  }

  /** Every CDK id starts with the project id followed by the capitalised environment. */
  lemma ResourceIdPrefix(options: NamingOptions)
    ensures StartsWith(ResourceId(options), ProjectId + Capitalize(options.environment))
  {
  }

  /** The service contributes to the id exactly when it is given and non-empty. */
  lemma ServiceContributesIff(environment: string, service: string, resource: string)
    ensures ResourceId(NamingOptions(Some(service), resource, environment))
         == ResourceId(NamingOptions(None, resource, environment))
        <==> service == ""
  {
    IdPartShape(service);
    if service != "" {
      assert |ResourceId(NamingOptions(Some(service), resource, environment))|
          > |ResourceId(NamingOptions(None, resource, environment))|;
    }
  }
}
