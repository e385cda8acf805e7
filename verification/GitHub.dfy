/** GitHub as the audit bot sees it: a list of issues with comments, and calls that may fail. */
module GitHub {
  import opened Strings
  import opened AuditState
  import opened AuditLog

  datatype Issue = Issue(title: string, body: string, labels: set<string>, open: bool, bot: bool,
                         pullRequest: bool, comments: seq<Comment>)

  datatype Patch = Patch(title: Option<string>, labels: Option<set<string>>, body: Option<string>, open: Option<bool>)

  function Apply(i: Issue, p: Patch): Issue {
    i.(title := if p.title.Some? then p.title.value else i.title,
       labels := if p.labels.Some? then p.labels.value else i.labels,
       body := if p.body.Some? then p.body.value else i.body,
       open := if p.open.Some? then p.open.value else i.open)
  }

  function NewIssue(title: string, body: string, labelName: string): Issue {
    Issue(title, body, {labelName}, true, true, false, [])
  }

  function WithComment(i: Issue, body: string): Issue { i.(comments := i.comments + [Comment(body, true)]) }

  /** What a call comes back with: a value, an `AuditIssueError`, or nothing because the run died. */
  datatype Reply<+T> = Done(value: T) | Raised(error: AuditError) | Died {
    predicate IsFailure() { !Done? }

    function PropagateFailure<U>(): Reply<U>
      requires !Done?
    {
      if Raised? then Raised(error) else Died
    }

    function Extract(): T
      requires Done?
    {
      value
    }
  }

  function AsReply<T>(r: Result<T>): Reply<T> {
    match r
    case Ok(v) => Done(v)
    case Err(e) => Raised(e)
  }

  /** Where a request fails, if it does. */
  datatype Fault = Fine | RaiseBefore | RaiseAfter | DieBefore | DieAfter

  /** One writer; reads return the current store. A client that is not reliable may raise or die at any call, and a
      write may have taken effect all the same; if it is steady, reads succeed nevertheless. */
  class Client {
    var issues: seq<Issue>
    var repositoryLabels: set<string>
    const reliable: bool
    const steady: bool

    constructor (issues: seq<Issue>, labels: set<string>, reliable: bool, steady: bool)
      ensures this.issues == issues && this.repositoryLabels == labels
      ensures this.reliable == reliable && this.steady == steady
    {
      this.issues := issues;
      this.repositoryLabels := labels;
      this.reliable := reliable;
      this.steady := steady;
    }

    method NextFault() returns (f: Fault)
      ensures reliable ==> f == Fine
    {
      if reliable { f := Fine; } else { f := *; }
    }

    /** Where a read fails, if it does. */
    method NextReadFault() returns (f: Fault)
      ensures reliable || steady ==> f == Fine
    {
      if reliable || steady { f := Fine; } else { f := *; }
    }

    method EnsureLabel(labelName: string) returns (r: Reply<()>)
      modifies `repositoryLabels
      ensures repositoryLabels == old(repositoryLabels) || repositoryLabels == old(repositoryLabels) + {labelName}
      ensures r.Done? ==> labelName in repositoryLabels
      ensures r.Raised? ==> r.error == Unavailable
      ensures reliable ==> r.Done?
    {
      var f := NextFault();
      if f == DieBefore { return Died; }
      if f == RaiseBefore { return Raised(Unavailable); }
      repositoryLabels := repositoryLabels + {labelName};
      r := if f == DieAfter then Died else if f == RaiseAfter then Raised(Unavailable) else Done(());
    }

    method Issues() returns (r: Reply<seq<Issue>>)
      ensures r.Done? ==> r.value == issues
      ensures r.Raised? ==> r.error == Unavailable
      ensures reliable || steady ==> r.Done?
    {
      var f := NextReadFault();
      r := if f == Fine then Done(issues) else if f.RaiseBefore? || f.RaiseAfter? then Raised(Unavailable) else Died;
    }

    method ReadIssue(number: nat) returns (r: Reply<Issue>)
      requires number < |issues|
      ensures r.Done? ==> r.value == issues[number]
      ensures r.Raised? ==> r.error == Unavailable
      ensures reliable || steady ==> r.Done?
    {
      var f := NextReadFault();
      r := if f == Fine then Done(issues[number])
           else if f.RaiseBefore? || f.RaiseAfter? then Raised(Unavailable) else Died;
    }

    method Comments(number: nat) returns (r: Reply<seq<Comment>>)
      requires number < |issues|
      ensures r.Done? ==> r.value == issues[number].comments
      ensures r.Raised? ==> r.error == Unavailable
      ensures reliable || steady ==> r.Done?
    {
      var f := NextReadFault();
      r := if f == Fine then Done(issues[number].comments)
           else if f.RaiseBefore? || f.RaiseAfter? then Raised(Unavailable) else Died;
    }

    method PatchIssue(number: nat, patch: Patch) returns (r: Reply<Issue>)
      requires number < |issues|
      modifies `issues
      ensures issues == old(issues) || issues == old(issues)[number := Apply(old(issues)[number], patch)]
      ensures r.Done? ==> issues == old(issues)[number := r.value] && r.value == Apply(old(issues)[number], patch)
      ensures r.Raised? ==> r.error == Unavailable
      ensures reliable ==> r.Done?
    {
      var f := NextFault();
      if f == DieBefore { return Died; }
      if f == RaiseBefore { return Raised(Unavailable); }
      issues := issues[number := Apply(issues[number], patch)];
      r := if f == DieAfter then Died else if f == RaiseAfter then Raised(Unavailable) else Done(issues[number]);
    }

    method CreateIssue(title: string, body: string, labelName: string) returns (r: Reply<nat>)
      modifies `issues
      ensures issues == old(issues) || issues == old(issues) + [NewIssue(title, body, labelName)]
      ensures r.Done? ==> issues == old(issues) + [NewIssue(title, body, labelName)] && r.value == |old(issues)|
      ensures r.Raised? ==> r.error == Unavailable
      ensures reliable ==> r.Done?
    {
      var f := NextFault();
      if f == DieBefore { return Died; }
      if f == RaiseBefore { return Raised(Unavailable); }
      issues := issues + [NewIssue(title, body, labelName)];
      r := if f == DieAfter then Died else if f == RaiseAfter then Raised(Unavailable) else Done(|issues| - 1);
    }

    method PostComment(number: nat, body: string) returns (r: Reply<()>)
      requires number < |issues|
      modifies `issues
      ensures issues == old(issues) || issues == old(issues)[number := WithComment(old(issues)[number], body)]
      ensures r.Done? ==> issues == old(issues)[number := WithComment(old(issues)[number], body)]
      ensures r.Raised? ==> r.error == Unavailable
      ensures reliable ==> r.Done?
    {
      var f := NextFault();
      if f == DieBefore { return Died; }
      if f == RaiseBefore { return Raised(Unavailable); }
      issues := issues[number := WithComment(issues[number], body)];
      r := if f == DieAfter then Died else if f == RaiseAfter then Raised(Unavailable) else Done(());
    }
  }
}
