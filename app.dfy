/** The interface's session state and how one run of the script changes it:
    keys set only when absent, the backend switch that forgets the list of
    indexed files, upload with per-name deduplication, question answering,
    feedback, and deletion that tolerates a backend without it. Widgets,
    rendering, the feedback table and temporary files are not modelled. */
module App {
  import opened Common
  import LangChainRag
  import LlamaIndexRag

  /** The keys of the session dictionary. */
  datatype Key = StoredFiles | Framework | Question | Answer | Langue

  const AllKeys: set<Key> := {StoredFiles, Framework, Question, Answer, Langue}

  datatype Backend = LangChain | LlamaIndex

  /** The backend module the script calls for the selected framework. */
  function ActiveBackend(selectedFramework: string): (b: Backend)
    ensures b == LangChain <==> selectedFramework == "langchain"
    ensures b == LlamaIndex <==> selectedFramework != "langchain"
  {
    if selectedFramework == "langchain" then LangChain else LlamaIndex
  }

  /** An uploaded file, with whether ingesting it would raise. */
  datatype UploadedFile = UploadedFile(name: string, ingestionRaises: bool)

  /** The list of stored names after an upload, and whether the loop ran to
      the end or an ingestion raised and ended the run. */
  datatype UploadResult = Completed(stored: seq<string>) | Aborted(stored: seq<string>)

  /** The upload loop: files in order; a name already listed is skipped
      (also when it was uploaded earlier in the same batch); any other file
      is ingested and then listed, unless its ingestion raises. */
  function AfterUpload(stored: seq<string>, files: seq<UploadedFile>): (r: UploadResult)
    decreases |files|
    ensures |stored| <= |r.stored| && r.stored[..|stored|] == stored
    ensures forall k :: |stored| <= k < |r.stored| ==>
              r.stored[k] !in stored && exists f :: f in files && f.name == r.stored[k]
    ensures r.Completed? ==> forall f :: f in files ==> f.name in r.stored
  {
    if files == [] then Completed(stored)
    else if files[0].name in stored then AfterUpload(stored, files[1..])
    else if files[0].ingestionRaises then Aborted(stored)
    else
      var r := AfterUpload(stored + [files[0].name], files[1..]);
      assert r.stored[..|stored|] == (stored + [files[0].name])[..|stored|];
      assert r.stored[|stored|] == files[0].name;
      r
  }

  /** Upload never lists a name twice. */
  lemma {:induction false} UploadKeepsNoDuplicates(stored: seq<string>, files: seq<UploadedFile>)
    requires NoDuplicates(stored)
    ensures NoDuplicates(AfterUpload(stored, files).stored)
    decreases |files|
  {
    if files != [] {
      if files[0].name in stored {
        UploadKeepsNoDuplicates(stored, files[1..]);
      } else if !files[0].ingestionRaises {
        UploadKeepsNoDuplicates(stored + [files[0].name], files[1..]);
      }
    }
  }

  /** The position of the first file named `x` in the batch, or the batch
      length when there is none. */
  function FirstNamed(files: seq<UploadedFile>, x: string): (i: nat)
    ensures i <= |files|
    ensures i < |files| ==> files[i].name == x
    ensures forall k :: 0 <= k < i ==> files[k].name != x
  {
    if files == [] then 0
    else if files[0].name == x then 0
    else 1 + FirstNamed(files[1..], x)
  }

  /** File `j` raised and is not listed (or `j` is the batch length). */
  ghost predicate FailsAt(files: seq<UploadedFile>, j: nat, result: seq<string>)
  {
    j <= |files| && (j < |files| ==> files[j].ingestionRaises && files[j].name !in result)
  }

  /** Every raising file before `j` was skipped: its name was listed before
      the batch or appeared earlier in it. */
  ghost predicate RaisesSkipped(stored: seq<string>, files: seq<UploadedFile>, j: nat)
    requires j <= |files|
  {
    forall i :: 0 <= i < j && files[i].ingestionRaises ==>
      files[i].name in stored || FirstNamed(files, files[i].name) < i
  }

  /** Every file before `j` is listed. */
  ghost predicate PrefixListed(files: seq<UploadedFile>, j: nat, result: seq<string>)
    requires j <= |files|
  {
    forall i :: 0 <= i < j ==> files[i].name in result
  }

  /** The appended names are names of files before `j`, in the order of
      their first occurrence in the batch. */
  ghost predicate AppendedInBatchOrder(stored: seq<string>, files: seq<UploadedFile>, j: nat, result: seq<string>)
  {
    (forall k :: |stored| <= k < |result| ==> FirstNamed(files, result[k]) < j) &&
    (forall k, m :: |stored| <= k < m < |result| ==>
       FirstNamed(files, result[k]) < FirstNamed(files, result[m]))
  }

  /** The upload loop stopped before file `j`, at the end when `j` is the
      batch length: file `j` is the first whose name was new and whose
      ingestion raised, every earlier file is listed, and the appended names
      are the new names of earlier files in batch order. */
  ghost predicate StopsAt(stored: seq<string>, files: seq<UploadedFile>, j: nat, result: seq<string>)
  {
    FailsAt(files, j, result) && RaisesSkipped(stored, files, j) &&
    PrefixListed(files, j, result) && AppendedInBatchOrder(stored, files, j, result)
  }

  /** The hypotheses of one loop step seen from the stop point of the rest
      of the batch: the first file was skipped or ingested. */
  ghost predicate StepFrom(stored: seq<string>, files: seq<UploadedFile>, s': seq<string>, result: seq<string>)
  {
    files != [] &&
    ((files[0].name in stored && s' == stored) ||
     (files[0].name !in stored && !files[0].ingestionRaises && s' == stored + [files[0].name])) &&
    |s'| <= |result| && result[..|s'|] == s' &&
    (forall k :: |s'| <= k < |result| ==> result[k] !in s')
  }

  lemma StepKeepsPrefixListed(stored: seq<string>, files: seq<UploadedFile>, s': seq<string>, j': nat, result: seq<string>)
    requires StepFrom(stored, files, s', result)
    requires j' <= |files[1..]| && PrefixListed(files[1..], j', result)
    ensures PrefixListed(files, j' + 1, result)
  {
    if files[0].name in stored {
      var m :| 0 <= m < |stored| && stored[m] == files[0].name;
      assert result[m] == s'[m];
    } else {
      assert result[|stored|] == s'[|stored|];
    }
    forall i | 1 <= i < j' + 1 ensures files[i].name in result {
      assert files[i] == files[1..][i - 1];
    }
  }

  lemma StepKeepsRaisesSkipped(stored: seq<string>, files: seq<UploadedFile>, s': seq<string>, j': nat, result: seq<string>)
    requires StepFrom(stored, files, s', result)
    requires j' <= |files[1..]| && RaisesSkipped(s', files[1..], j')
    ensures RaisesSkipped(stored, files, j' + 1)
  {
    forall i | 1 <= i < j' + 1 && files[i].ingestionRaises
      ensures files[i].name in stored || FirstNamed(files, files[i].name) < i
    {
      assert files[i] == files[1..][i - 1];
    }
  }

  lemma StepKeepsBatchOrder(stored: seq<string>, files: seq<UploadedFile>, s': seq<string>, j': nat, result: seq<string>)
    requires StepFrom(stored, files, s', result)
    requires AppendedInBatchOrder(s', files[1..], j', result)
    ensures AppendedInBatchOrder(stored, files, j' + 1, result)
  {
    forall k | |s'| <= k < |result|
      ensures FirstNamed(files, result[k]) == 1 + FirstNamed(files[1..], result[k])
    {
      assert result[k] != files[0].name;
    }
    if s' != stored {
      assert result[|stored|] == s'[|stored|] == files[0].name;
    }
  }

  /** One step of the upload loop moves the stop point one file later. */
  lemma StopsAtStep(stored: seq<string>, files: seq<UploadedFile>, s': seq<string>, j': nat, result: seq<string>)
    requires StepFrom(stored, files, s', result)
    requires StopsAt(s', files[1..], j', result)
    ensures StopsAt(stored, files, j' + 1, result)
  {
    StepKeepsPrefixListed(stored, files, s', j', result);
    StepKeepsRaisesSkipped(stored, files, s', j', result);
    StepKeepsBatchOrder(stored, files, s', j', result);
    assert files[j' + 1..] == files[1..][j'..];
  }

  /** Names ingested before a failing file stay listed, new names are
      appended in batch order, and the run stops at the first file whose
      name is not listed yet and whose ingestion raises. */
  lemma {:induction false} UploadStopsAtFirstFailure(stored: seq<string>, files: seq<UploadedFile>)
    ensures exists j: nat :: (AfterUpload(stored, files).Completed? <==> j == |files|) &&
                             StopsAt(stored, files, j, AfterUpload(stored, files).stored)
    decreases |files|
  {
    var r := AfterUpload(stored, files);
    if files == [] {
      assert r.Completed? && StopsAt(stored, files, 0, r.stored);
    } else if files[0].name !in stored && files[0].ingestionRaises {
      assert r == Aborted(stored);
      assert StopsAt(stored, files, 0, r.stored);
    } else {
      var s' := if files[0].name in stored then stored else stored + [files[0].name];
      assert r == AfterUpload(s', files[1..]);
      UploadStopsAtFirstFailure(s', files[1..]);
      var j': nat :| (r.Completed? <==> j' == |files[1..]|) && StopsAt(s', files[1..], j', r.stored);
      StopsAtStep(stored, files, s', j', r.stored);
      assert (r.Completed? <==> j' + 1 == |files|) && StopsAt(stored, files, j' + 1, r.stored);
    }
  }

  /** The position of the first occurrence of `x`. */
  function FirstIndex(s: seq<string>, x: string): (i: nat)
    requires x in s
    ensures i < |s| && s[i] == x && x !in s[..i]
  {
    if s[0] == x then 0
    else
      var i := FirstIndex(s[1..], x);
      assert s[..i + 1] == [s[0]] + s[1..][..i];
      i + 1
  }

  /** `list.remove`: drops the first occurrence of `x` and keeps the rest in
      order. */
  function RemoveFirst(s: seq<string>, x: string): seq<string>
    requires x in s
  {
    if s[0] == x then s[1..] else [s[0]] + RemoveFirst(s[1..], x)
  }

  /** Removal cuts out exactly the element at the first occurrence. */
  lemma {:induction false} RemoveFirstCutsFirst(s: seq<string>, x: string)
    requires x in s
    ensures RemoveFirst(s, x) == s[..FirstIndex(s, x)] + s[FirstIndex(s, x) + 1..]
  {
    if s[0] != x {
      RemoveFirstCutsFirst(s[1..], x);
      var i := FirstIndex(s[1..], x);
      assert s[..i + 1] == [s[0]] + s[1..][..i];
      assert s[i + 2..] == s[1..][i + 1..];
    }
  }

  /** On a list without duplicates, removal takes the name out, keeps every
      other name and keeps the list free of duplicates. */
  lemma {:induction false} RemoveFirstNoDuplicates(s: seq<string>, x: string)
    requires x in s && NoDuplicates(s)
    ensures |RemoveFirst(s, x)| == |s| - 1
    ensures x !in RemoveFirst(s, x)
    ensures NoDuplicates(RemoveFirst(s, x))
    ensures forall y :: y != x ==> (y in RemoveFirst(s, x) <==> y in s)
  {
    var rest := s[1..];
    assert NoDuplicates(rest);
    assert forall k :: 0 <= k < |rest| ==> rest[k] != s[0];
    assert s == [s[0]] + rest;
    if s[0] != x {
      RemoveFirstNoDuplicates(rest, x);
      var r := RemoveFirst(rest, x);
      assert RemoveFirst(s, x) == [s[0]] + r;
      assert s[0] !in r;
    }
  }

  /** `st.session_state`: which keys are present and their values. */
  class SessionState {
    var present: set<Key>
    var storedFiles: seq<string>
    var framework: string
    var question: string
    var answer: string
    var langue: string

    /** The list of stored file names never holds a name twice. */
    ghost predicate Valid()
      reads this
    {
      StoredFiles in present ==> NoDuplicates(storedFiles)
    }

    /** Every key is present. */
    ghost predicate Ready()
      reads this
    {
      present == AllKeys
    }

    /** A new browser session: no key is present yet. */
    constructor ()
      ensures Valid() && present == {}
    {
      present := {};
      storedFiles, framework, question, answer, langue := [], "", "", "", "";
    }

    /** Sets each key to its default only when it is absent, so a rerun
        keeps the values of the previous run. */
    method InitIfAbsent()
      requires Valid()
      modifies this
      ensures Valid() && Ready()
      ensures storedFiles == if StoredFiles in old(present) then old(storedFiles) else []
      ensures framework == if Framework in old(present) then old(framework) else "langchain"
      ensures question == if Question in old(present) then old(question) else ""
      ensures answer == if Answer in old(present) then old(answer) else ""
      ensures langue == if Langue in old(present) then old(langue) else "Français"
    {
      if StoredFiles !in present {
        storedFiles := [];
      }
      if Framework !in present {
        framework := "langchain";
      }
      if Question !in present {
        question := "";
      }
      if Answer !in present {
        answer := "";
      }
      if Langue !in present {
        langue := "Français";
      }
      present := AllKeys;
    }

    /** Choosing another framework records it and empties the list of stored
        files; choosing the current one changes nothing. */
    method SelectFramework(selected: string)
      requires Valid() && Ready()
      modifies this
      ensures Valid() && Ready()
      ensures framework == selected
      ensures storedFiles == if selected != old(framework) then [] else old(storedFiles)
      ensures question == old(question) && answer == old(answer) && langue == old(langue)
    {
      if selected != framework {
        framework := selected;
        storedFiles := [];
      }
    }

    /** The selected response language is recorded on every run. */
    method SelectLangue(selected: string)
      requires Valid() && Ready()
      modifies this
      ensures Valid() && Ready()
      ensures langue == selected
      ensures storedFiles == old(storedFiles) && framework == old(framework)
      ensures question == old(question) && answer == old(answer)
    {
      langue := selected;
    }

    /** The upload loop. It returns false when an ingestion raised, which
        ends the run with the names listed so far. */
    method UploadFiles(files: seq<UploadedFile>) returns (completed: bool)
      requires Valid() && Ready()
      modifies this
      ensures Valid() && Ready()
      ensures storedFiles == AfterUpload(old(storedFiles), files).stored
      ensures completed == AfterUpload(old(storedFiles), files).Completed?
      ensures framework == old(framework) && langue == old(langue)
      ensures question == old(question) && answer == old(answer)
    {
      UploadKeepsNoDuplicates(storedFiles, files);
      var i := 0;
      while i < |files|
        invariant 0 <= i <= |files|
        invariant present == old(present)
        invariant AfterUpload(storedFiles, files[i..]) == AfterUpload(old(storedFiles), files)
        invariant framework == old(framework) && langue == old(langue)
        invariant question == old(question) && answer == old(answer)
      {
        assert files[i..][1..] == files[i + 1..];
        if files[i].name !in storedFiles {
          if files[i].ingestionRaises {
            return false;
          }
          storedFiles := storedFiles + [files[i].name];
        }
        i := i + 1;
      }
      assert files[i..] == [];
      completed := true;
    }

    /** Asking a question: when the button is pressed with a non-empty
        question, a successful answer records both the question and the
        answer; a raised exception changes neither. */
    method AskQuestion(pressed: bool, q: string, outcome: Result<string>)
      requires Valid() && Ready()
      modifies this
      ensures Valid() && Ready()
      ensures if pressed && q != "" && outcome.Ok? then question == q && answer == outcome.value
              else question == old(question) && answer == old(answer)
      ensures storedFiles == old(storedFiles) && framework == old(framework) && langue == old(langue)
    {
      if pressed && q != "" {
        match outcome
        case Ok(a) =>
          question := q;
          answer := a;
        case Raised(_) =>
      }
    }

    /** Submitting feedback on a shown answer clears question and answer. */
    method SubmitFeedback(pressed: bool)
      requires Valid() && Ready()
      modifies this
      ensures Valid() && Ready()
      ensures if old(answer) != "" && pressed then question == "" && answer == ""
              else question == old(question) && answer == old(answer)
      ensures storedFiles == old(storedFiles) && framework == old(framework) && langue == old(langue)
    {
      if answer != "" && pressed {
        question := "";
        answer := "";
      }
    }

    /** Deleting a listed document: the backend deletes it and the name leaves
        the list; a backend that raises `NotImplementedError` leaves both the
        list and the stores as they were. */
    method DeleteDocument(doc: string, pressed: bool, backend: Backend,
                          lc: LangChainRag.VectorStore, li: LlamaIndexRag.SimpleVectorStore)
      requires Valid() && Ready() && lc.Valid()
      requires doc in storedFiles
      requires backend == ActiveBackend(framework)
      modifies this, lc
      ensures Valid() && Ready() && lc.Valid()
      ensures framework == old(framework) && langue == old(langue)
      ensures question == old(question) && answer == old(answer)
      ensures if pressed && backend == LangChain then
                storedFiles == RemoveFirst(old(storedFiles), doc) && doc !in storedFiles &&
                lc.entries == LangChainRag.WithoutName(old(lc.entries), doc)
              else
                storedFiles == old(storedFiles) && lc.entries == old(lc.entries)
    {
      if pressed {
        var r: Result<nat>;
        if backend == LangChain {
          var count := lc.DeleteFileFromStore(doc);
          r := Ok(count);
        } else {
          r := li.DeleteFileFromStore(doc);
        }
        if r.Ok? {
          RemoveFirstNoDuplicates(storedFiles, doc);
          storedFiles := RemoveFirst(storedFiles, doc);
        }
      }
    }
  }
}
