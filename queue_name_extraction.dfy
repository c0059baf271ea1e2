/** The queue-name extraction that the job-list tests exercise: a
    qualified name `bull:<queue>` yields `<queue>`, any other name is kept,
    and a missing name becomes "unknown". */
module QueueNameExtraction {
  import opened JsValues
  import opened Text
  import opened Jobs
  import JobDetail

  /** The characters `.` does not match in a JavaScript regular expression
      without the `s` flag. */
  predicate IsLineTerminator(c: char)
  {
    c == '\n' || c == '\r' || c == '\U{2028}' || c == '\U{2029}'
  }

  predicate NoLineTerminators(s: string)
  {
    forall i :: 0 <= i < |s| ==> !IsLineTerminator(s[i])
  }

  /** Whether `/^bull:(.*)$/` matches: the prefix, then a rest without
      line terminators up to the end of the text. */
  predicate MatchesBullPattern(q: string)
  {
    StartsWith(q, "bull:") && NoLineTerminators(q[5..])
  }

  /** `extractQueueName`. The test for the empty text after the falsy
      guard can never succeed, so an empty name yields "unknown". */
  function ExtractQueueName(q: Option<string>): (r: string)
    ensures !TruthyStr(q) ==> r == "unknown"
    ensures TruthyStr(q) && MatchesBullPattern(q.value) ==> q.value == "bull:" + r
    ensures TruthyStr(q) && !MatchesBullPattern(q.value) ==> r == q.value
    ensures r == "" <==> q == Some("bull:")
  {
    if !TruthyStr(q) then "unknown"
    else if q.value == "" then ""
    else if MatchesBullPattern(q.value) then
      assert q.value == "bull:" + q.value[5..];
      assert q.value[5..] == "" ==> q.value == q.value[..5];
      q.value[5..]
    else q.value
  }

  /** The expectations of the job-list tests: the prefix is removed, a
      name without it is kept, a missing name is "unknown" and the bare
      prefix gives the empty text. For the empty name the tests accept ""
      or "unknown"; it is "unknown". */
  lemma ExtractQueueNameExamples()
    ensures ExtractQueueName(Some("bull:test-queue")) == "test-queue"
    ensures ExtractQueueName(None) == "unknown"
    ensures ExtractQueueName(Some("bull:")) == ""
    ensures ExtractQueueName(Some("")) == "unknown"
  {
    assert MatchesBullPattern("bull:test-queue");
  }

  lemma ExtractKeepsUnprefixedName()
    ensures ExtractQueueName(Some("no-prefix-queue")) == "no-prefix-queue"
  {
    assert !StartsWith("no-prefix-queue", "bull:") by {
      assert "no-prefix-queue"[0] != "bull:"[0];
    }
  }

  lemma ExtractKeepsColons()
    ensures ExtractQueueName(Some("bull:queue:with:colons")) == "queue:with:colons"
  {
    assert MatchesBullPattern("bull:queue:with:colons");
  }

  /** Only the first "bull:" is removed. */
  lemma ExtractRemovesOnePrefix(rest: string)
    requires NoLineTerminators(rest)
    ensures ExtractQueueName(Some("bull:" + rest)) == rest
    ensures ExtractQueueName(Some("bull:bull:" + rest)) == "bull:" + rest
  {
    var q := "bull:" + rest;
    assert q[..5] == "bull:" && q[5..] == rest;
    var qq := "bull:bull:" + rest;
    assert qq[..5] == "bull:" && qq[5..] == "bull:" + rest;
    assert forall i :: 0 <= i < |qq[5..]| ==> !IsLineTerminator(qq[5..][i]) by {
      forall i | 0 <= i < |qq[5..]|
        ensures !IsLineTerminator(qq[5..][i])
      {
        if i >= 5 {
          assert qq[5..][i] == rest[i - 5];
        }
      }
    }
  }

  /** On a truthy name without line terminators the extraction agrees with
      the detail modal's prefix stripping; a line break after the prefix
      makes them differ. */
  lemma AgreesWithStripBullPrefix(q: string)
    requires q != "" && NoLineTerminators(q)
    ensures ExtractQueueName(Some(q)) == JobDetail.StripBullPrefix(q)
  {
    if StartsWith(q, "bull:") {
      assert forall i :: 0 <= i < |q[5..]| ==> q[5..][i] == q[i + 5];
    }
  }

  lemma LineBreakKeepsPrefix()
    ensures ExtractQueueName(Some("bull:a\nb")) == "bull:a\nb"
    ensures JobDetail.StripBullPrefix("bull:a\nb") == "a\nb"
  {
    assert IsLineTerminator("bull:a\nb"[5..][1]);
  }

  /** One entry of the extracted list. */
  datatype Extracted = Extracted(id: Option<string>, originalQualifiedName: Option<string>, extractedName: string)

  /** The extracted list: one entry per job, in job order. */
  function ExtractedNames(jobs: seq<RawJob>): (r: seq<Extracted>)
    ensures |r| == |jobs|
    ensures forall i :: 0 <= i < |jobs| ==>
              r[i].id == jobs[i].id && r[i].originalQualifiedName == jobs[i].queueQualifiedName
              && r[i].extractedName == ExtractQueueName(jobs[i].queueQualifiedName)
  {
    seq(|jobs|, i requires 0 <= i < |jobs| =>
      Extracted(jobs[i].id, jobs[i].queueQualifiedName, ExtractQueueName(jobs[i].queueQualifiedName)))
  }
}
