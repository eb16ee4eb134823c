/** The job runner: walks the filtered contacts in order, composes an email
    for each, sends the ones whose content is non-empty and appends one task
    result per send to a shared list. The language-model composer and the
    SMTP transport are parameters: `compose` gives the body text produced for
    a record, `transport` the outcome of the session for a body and a list of
    destination addresses. */
module Job {
  import opened Contacts
  import opened Mailer

  type Composer = Record -> string
  type Transport = (string, seq<string>) -> Outcome

  /** What is recorded for one contact. */
  datatype Task = Task(email: string, message: string)

  /** The shared, growing list of task results. */
  class TaskList {
    var items: seq<Task>

    constructor ()
      ensures items == []
    {
      items := [];
    }

    method Append(t: Task)
      modifies this
      ensures items == old(items) + [t]
    {
      items := items + [t];
    }
  }

  /** The runner reads `email` of every record, including those it skips. */
  predicate AllHaveEmail(data: seq<Record>)
  {
    forall i :: 0 <= i < |data| ==> "email" in data[i]
  }

  /** The task recorded for a record whose content is sent: its address and
      the message the sender reported, whatever the outcome. */
  function Attempt(data: Record, compose: Composer, transport: Transport): (t: Task)
    requires "email" in data
    ensures t.email == data["email"]
    ensures t.message != ""
    ensures t.message == SuccessMessage <==> transport(compose(data), [data["email"]]).Sent?
  {
    Task(data["email"], SendEmail(transport(compose(data), [data["email"]])).message)
  }

  /** The results one run appends, defined record by record as the runner
      processes them. */
  function JobResults(data: seq<Record>, compose: Composer, transport: Transport): (tasks: seq<Task>)
    requires AllHaveEmail(data)
    ensures |tasks| <= |data|
    decreases |data|
  {
    if |data| == 0 then []
    else
      assert AllHaveEmail(data[1..]) by {
        forall i | 0 <= i < |data| - 1 ensures "email" in data[1..][i] { assert data[1..][i] == data[i + 1]; }
      }
      (if compose(data[0]) != "" then [Attempt(data[0], compose, transport)] else [])
        + JobResults(data[1..], compose, transport)
  }

  /** The positions of the records whose composed content is non-empty, in
      increasing order. */
  function ContentIndices(data: seq<Record>, compose: Composer): (idx: seq<nat>)
    ensures |idx| <= |data|
    ensures forall k :: 0 <= k < |idx| ==> idx[k] < |data|
    decreases |data|
  {
    if |data| == 0 then []
    else
      var n := |data| - 1;
      ContentIndices(data[..n], compose) + (if compose(data[n]) != "" then [n] else [])
  }

  /** The indices are exactly the non-empty records' positions, each once, in
      increasing order. */
  lemma {:induction false} ContentIndicesExact(data: seq<Record>, compose: Composer)
    ensures var idx := ContentIndices(data, compose);
      && (forall k, l :: 0 <= k < l < |idx| ==> idx[k] < idx[l])
      && (forall i :: 0 <= i < |data| ==> (i in idx <==> compose(data[i]) != ""))
    decreases |data|
  {
    if |data| > 0 {
      var n := |data| - 1;
      var prefix := data[..n];
      ContentIndicesExact(prefix, compose);
      var idx := ContentIndices(data, compose);
      var ip := ContentIndices(prefix, compose);
      assert forall j :: 0 <= j < n ==> prefix[j] == data[j];
      if compose(data[n]) != "" {
        assert idx == ip + [n];
      } else {
        assert idx == ip;
      }
    }
  }

  lemma AllHaveEmailSlice(data: seq<Record>, i: int, j: int)
    requires AllHaveEmail(data)
    requires 0 <= i <= j <= |data|
    ensures AllHaveEmail(data[i..j])
  {
  }

  /** The results over a concatenation are the concatenation of the
      results over each part, in order. */
  lemma {:induction false} JobResultsAppend(a: seq<Record>, b: seq<Record>, compose: Composer, transport: Transport)
    requires AllHaveEmail(a) && AllHaveEmail(b)
    ensures AllHaveEmail(a + b)
    ensures JobResults(a + b, compose, transport) == JobResults(a, compose, transport) + JobResults(b, compose, transport)
    decreases |a|
  {
    assert AllHaveEmail(a + b) by {
      forall i | 0 <= i < |a + b| ensures "email" in (a + b)[i] {
        if i < |a| { assert (a + b)[i] == a[i]; } else { assert (a + b)[i] == b[i - |a|]; }
      }
    }
    if |a| > 0 {
      assert (a + b)[1..] == a[1..] + b;
      AllHaveEmailSlice(a, 1, |a|);
      JobResultsAppend(a[1..], b, compose, transport);
    } else {
      assert a + b == b;
    }
  }

  /** The results of a run, read against the input: one task for each
      record whose content is non-empty, in input order, carrying that
      record's address and the message reported for its own send; none for a
      record whose content is empty. */
  lemma {:induction false} JobResultsAt(data: seq<Record>, compose: Composer, transport: Transport)
    requires AllHaveEmail(data)
    ensures |JobResults(data, compose, transport)| == |ContentIndices(data, compose)|
    ensures forall k :: 0 <= k < |JobResults(data, compose, transport)| ==>
      JobResults(data, compose, transport)[k] == Attempt(data[ContentIndices(data, compose)[k]], compose, transport)
    decreases |data|
  {
    if |data| > 0 {
      var n := |data| - 1;
      var prefix := data[..n];
      AllHaveEmailSlice(data, 0, n);
      AllHaveEmailSlice(data, n, |data|);
      JobResultsAt(prefix, compose, transport);
      assert data == prefix + data[n..];
      JobResultsAppend(prefix, data[n..], compose, transport);
      var tp := JobResults(prefix, compose, transport);
      var ip := ContentIndices(prefix, compose);
      assert data[n..][1..] == [];
      assert forall j :: 0 <= j < n ==> prefix[j] == data[j];
      if compose(data[n]) != "" {
        assert JobResults(data[n..], compose, transport) == [Attempt(data[n], compose, transport)];
        assert JobResults(data, compose, transport) == tp + [Attempt(data[n], compose, transport)];
        assert ContentIndices(data, compose) == ip + [n];
      } else {
        assert JobResults(data[n..], compose, transport) == [];
        assert JobResults(data, compose, transport) == tp;
        assert ContentIndices(data, compose) == ip;
      }
    }
  }

  /** The whole contract of a run in terms of the input records. */
  lemma JobResultsSpec(data: seq<Record>, compose: Composer, transport: Transport)
    requires AllHaveEmail(data)
    ensures var tasks, idx := JobResults(data, compose, transport), ContentIndices(data, compose);
      && |tasks| == |idx| <= |data|
      && (forall k, l :: 0 <= k < l < |idx| ==> idx[k] < idx[l])
      && (forall i :: 0 <= i < |data| ==> (i in idx <==> compose(data[i]) != ""))
      && (forall k :: 0 <= k < |tasks| ==> tasks[k].email == data[idx[k]]["email"])
      && (forall k :: 0 <= k < |tasks| ==>
            tasks[k].message == SendEmail(transport(compose(data[idx[k]]), [data[idx[k]]["email"]])).message)
  {
    JobResultsAt(data, compose, transport);
    ContentIndicesExact(data, compose);
  }

  /** A send that fails is still recorded, and a record after it is still
      processed. */
  lemma FailedSendRecorded(data: seq<Record>, compose: Composer, transport: Transport, i: int, j: int)
    requires AllHaveEmail(data)
    requires 0 <= i < j < |data|
    requires compose(data[i]) != "" && compose(data[j]) != ""
    requires transport(compose(data[i]), [data[i]["email"]]).Failed?
    ensures exists k, l ::
      && 0 <= k < l < |JobResults(data, compose, transport)|
      && JobResults(data, compose, transport)[k]
           == Task(data[i]["email"], FaultMessage(transport(compose(data[i]), [data[i]["email"]]).fault))
      && JobResults(data, compose, transport)[l] == Attempt(data[j], compose, transport)
  {
    JobResultsAt(data, compose, transport);
    ContentIndicesExact(data, compose);
    var tasks, idx := JobResults(data, compose, transport), ContentIndices(data, compose);
    assert i in idx && j in idx;
    var k :| 0 <= k < |idx| && idx[k] == i;
    var l :| 0 <= l < |idx| && idx[l] == j;
    assert k < l;
    var o := transport(compose(data[i]), [data[i]["email"]]);
    assert SendEmail(o).message == FaultMessage(o.fault);
    assert tasks[k] == Attempt(data[i], compose, transport);
    assert tasks[l] == Attempt(data[j], compose, transport);
  }

  /** `do_job`: processes the first record, then recurses on the rest with
      the same list, which it returns. It only appends to that list. */
  method DoJob(dataList: seq<Record>, tasks: TaskList, compose: Composer, transport: Transport)
    returns (r: TaskList)
    requires AllHaveEmail(dataList)
    modifies tasks
    ensures r == tasks
    ensures tasks.items == old(tasks.items) + JobResults(dataList, compose, transport)
    decreases |dataList|
  {
    if |dataList| > 0 {
      var data := dataList[0];
      var content := compose(data);
      if content != "" {
        var report := SendEmail(transport(content, [data["email"]]));
        tasks.Append(Task(data["email"], report.message));
      }
    }
    if |dataList| > 0 {
      AllHaveEmailSlice(dataList, 1, |dataList|);
      var _ := DoJob(dataList[1..], tasks, compose, transport);
    }
    r := tasks;
  }

  /** The entry point: filter the fetched rows and run the job on a fresh,
      empty list. */
  method Run(rows: seq<Record>, compose: Composer, transport: Transport) returns (tasks: TaskList)
    requires AllHaveEmail(rows)
    ensures fresh(tasks)
    ensures AllHaveEmail(FilterData(rows))
    ensures tasks.items == JobResults(FilterData(rows), compose, transport)
  {
    var filtered := FilterData(rows);
    forall i | 0 <= i < |filtered| ensures "email" in filtered[i] {
      FilterDataKeepsEmail(rows, i);
    }
    var empty := new TaskList();
    tasks := DoJob(filtered, empty, compose, transport);
  }
}
