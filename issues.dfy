/** The issue payload returned by the search endpoint, and the fallback rules
    by which the dashboard reads its optional fields. */
module Issues {
  import opened Wrappers

  /** A person reference: `displayName` and `avatarUrls["48x48"]`. */
  datatype PersonRef = PersonRef(displayName: Option<string>, avatar48: Option<string>)

  /** One issue of the payload. Only `key` and `fields.status.name` are read
      without a guard; every other field may be missing. */
  datatype Issue = Issue(
    key: string,
    status: string,                      // fields.status.name
    summary: Option<string>,             // fields.summary
    severity: Option<string>,            // fields.customfield_11506.value
    priority: Option<string>,            // fields.priority.name
    reporter: Option<PersonRef>,         // fields.reporter
    actualDeveloper: Option<PersonRef>,  // fields.customfield_10919
    assignee: Option<PersonRef>,         // fields.assignee
    qaOwner: Option<PersonRef>)          // fields.customfield_11024

  /** A search result; its `issues` array may be absent. */
  datatype Payload = Payload(issues: Option<seq<Issue>>)

  /** `json.issues || []` */
  function IssuesOf(json: Payload): (r: seq<Issue>)
    ensures json.issues.Some? ==> r == json.issues.value
    ensures json.issues.None? ==> r == []
  {
    if json.issues.Some? then json.issues.value else []
  }

  /** JavaScript truthiness of an optional string: null, undefined and "" are falsy. */
  predicate Truthy(o: Option<string>) {
    o.Some? && o.value != ""
  }

  /** `a || b` on optional strings. */
  function Or(a: Option<string>, b: Option<string>): Option<string> {
    if Truthy(a) then a else b
  }

  /** `a || d` with a literal default `d`. */
  function OrElse(a: Option<string>, d: string): string {
    if Truthy(a) then a.value else d
  }

  /** `p?.displayName` */
  function NameOf(p: Option<PersonRef>): Option<string> {
    if p.Some? then p.value.displayName else None
  }

  /** `p?.avatarUrls?.['48x48']` */
  function AvatarOf(p: Option<PersonRef>): Option<string> {
    if p.Some? then p.value.avatar48 else None
  }

  /** The priority used for scoring: the custom severity value, else the
      standard priority name, else "Medium"; an empty label falls through. */
  function EffectivePriority(issue: Issue): (r: string)
    ensures Truthy(issue.severity) ==> r == issue.severity.value
    ensures !Truthy(issue.severity) && Truthy(issue.priority) ==> r == issue.priority.value
    ensures !Truthy(issue.severity) && !Truthy(issue.priority) ==> r == "Medium"
    ensures r != ""
  {
    OrElse(Or(issue.severity, issue.priority), "Medium")
  }

  /** The tester credited with an issue: its reporter, else "Unknown". */
  function ReporterName(issue: Issue): (r: string)
    ensures Truthy(NameOf(issue.reporter)) ==> r == issue.reporter.value.displayName.value
    ensures !Truthy(NameOf(issue.reporter)) ==> r == "Unknown"
    ensures r != ""
  {
    OrElse(NameOf(issue.reporter), "Unknown")
  }

  /** The developer credited with an issue: the "actual developer" custom
      field, else the assignee, else "Unassigned". */
  function DeveloperName(issue: Issue): (r: string)
    ensures Truthy(NameOf(issue.actualDeveloper)) ==> r == issue.actualDeveloper.value.displayName.value
    ensures !Truthy(NameOf(issue.actualDeveloper)) && Truthy(NameOf(issue.assignee)) ==>
              r == issue.assignee.value.displayName.value
    ensures !Truthy(NameOf(issue.actualDeveloper)) && !Truthy(NameOf(issue.assignee)) ==> r == "Unassigned"
    ensures r != ""
  {
    OrElse(Or(NameOf(issue.actualDeveloper), NameOf(issue.assignee)), "Unassigned")
  }

  /** The developer's avatar, taken from the custom field when that has a
      non-empty one, even when the name came from the assignee. */
  function DeveloperAvatar(issue: Issue): (r: Option<string>)
    ensures Truthy(AvatarOf(issue.actualDeveloper)) ==> r == issue.actualDeveloper.value.avatar48
    ensures !Truthy(AvatarOf(issue.actualDeveloper)) ==> r == AvatarOf(issue.assignee)
  {
    Or(AvatarOf(issue.actualDeveloper), AvatarOf(issue.assignee))
  }

  /** The two person registries of a snapshot. */
  datatype Role = Tester | Developer

  /** The person an issue is attributed to in one registry, with the avatar
      recorded if that person is new. */
  datatype Credit = Credit(name: string, avatar: Option<string>)

  /** Every issue credits its reporter (or "Unknown") as tester; it credits
      a developer only when the resolved developer name is not "Unassigned". */
  function CreditOf(issue: Issue, role: Role): (c: Option<Credit>)
    ensures role == Tester ==> c == Some(Credit(ReporterName(issue), AvatarOf(issue.reporter)))
    ensures role == Developer ==>
              (c.Some? <==> DeveloperName(issue) != "Unassigned") &&
              (c.Some? ==> c.value == Credit(DeveloperName(issue), DeveloperAvatar(issue)))
    ensures c.Some? ==> c.value.name != ""
  {
    match role
    case Tester => Some(Credit(ReporterName(issue), AvatarOf(issue.reporter)))
    case Developer =>
      var name := DeveloperName(issue);
      if name != "Unassigned" then Some(Credit(name, DeveloperAvatar(issue))) else None
  }
}
