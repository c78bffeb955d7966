/**
 * The Git metadata attached to a benchmark: the iterator that lists it as
 * four key/value pairs, the first-line rule for commit messages, and the
 * staged/unstaged classification of status entries behind `is_dirty`.
 * The repository itself (discovery, branch, commit, status listing) is not
 * modelled: its results come in as values.
 */
module Git {
  import opened Wrappers
  import Strings
  import opened Values

  datatype GitInfo = GitInfo(commit_id: string, commit_message: string, branch: string, is_dirty: bool)

  /**
   * The pairs the iterator yields, in order. The four keys differ, so the
   * pairs can sit side by side in one record, and each value converts back
   * to the field it was made from.
   */
  function Entries(git: GitInfo): (entries: seq<(string, Value)>)
    ensures |entries| == 4
    ensures forall i, j :: 0 <= i < j < 4 ==> entries[i].0 != entries[j].0
    ensures TryIntoString(entries[0].1) == Ok(git.commit_id)
    ensures TryIntoString(entries[1].1) == Ok(git.commit_message)
    ensures TryIntoString(entries[2].1) == Ok(git.branch)
    ensures TryIntoBool(entries[3].1) == Ok(git.is_dirty)
  {
    [ ("git_commit_hash", String(git.commit_id)),
      ("git_commit_msg", String(git.commit_message)),
      ("git_branch", String(git.branch)),
      ("git_is_dirty", Bool(git.is_dirty)) ]
  }

  /** `GitInfoIterator`: a cursor over the four entries of one GitInfo. */
  class GitInfoIterator {
    const git: GitInfo
    var index: nat

    /** `into_iter`: the cursor starts at the first entry. */
    constructor (git: GitInfo)
      ensures this.git == git && index == 0
    {
      this.git := git;
      index := 0;
    }

    /**
     * `next`: the entry at the cursor, which then moves on by one; once all
     * four have been yielded, `None`, and the cursor stays where it is.
     */
    method Next() returns (item: Option<(string, Value)>)
      modifies this
      ensures old(index) < 4 ==> item == Some(Entries(git)[old(index)]) && index == old(index) + 1
      ensures old(index) >= 4 ==> item == None && index == old(index)
    {
      var result;
      match index {
        case 0 => result := ("git_commit_hash", String(git.commit_id));
        case 1 => result := ("git_commit_msg", String(git.commit_message));
        case 2 => result := ("git_branch", String(git.branch));
        case 3 => result := ("git_is_dirty", Bool(git.is_dirty));
        case _ => return None;
      }
      index := index + 1;
      item := Some(result);
    }
  }

  /**
   * The stored commit message: the text up to the first line break of the
   * commit's message, or "" when the commit has no (UTF-8) message.
   */
  function FirstLine(message: Option<string>): (line: string)
    ensures message.None? ==> line == ""
    ensures message.Some? ==>
              && line <= message.value
              && '\n' !in line
              && (|line| < |message.value| ==> message.value[|line|] == '\n')
  {
    match message
    case None => ""
    case Some(msg) => Strings.Split(msg, '\n')[0]
  }

  /** The `git2::Status` flags. An entry whose status has none of them is `CURRENT`. */
  datatype StatusFlag =
    | IndexNew | IndexModified | IndexDeleted | IndexRenamed | IndexTypechange
    | WtNew | WtModified | WtDeleted | WtTypechange | WtRenamed | WtUnreadable
    | Ignored | Conflicted

  type Status = set<StatusFlag>

  const CURRENT: Status := {}

  /** A diff delta, by the path of its new file (which git may not know). */
  datatype DiffDelta = DiffDelta(newFilePath: Option<string>)

  datatype StatusEntry = StatusEntry(
    status: Status,
    headToIndex: Option<DiffDelta>,
    indexToWorkdir: Option<DiffDelta>)

  /** The flags that record a change in the index. */
  const INDEX_CHANGES: Status := {IndexNew, IndexModified, IndexDeleted, IndexRenamed, IndexTypechange}

  /** The flags that count as a change to a tracked file in the working tree. */
  const WORKTREE_CHANGES: Status := {WtModified, WtDeleted, WtRenamed, WtTypechange}

  /**
   * The filter of `staged_files`: some change is recorded in the index. The
   * `CURRENT` test is implied by the flag test.
   */
  predicate IsStaged(e: StatusEntry)
    ensures IsStaged(e) <==> e.status * INDEX_CHANGES != {}
  {
    assert e.status * INDEX_CHANGES != {} ==> exists f :: f in e.status * INDEX_CHANGES;
    assert forall f :: f in INDEX_CHANGES <==>
      f == IndexNew || f == IndexModified || f == IndexDeleted || f == IndexRenamed || f == IndexTypechange;
    assert forall f :: f in e.status * INDEX_CHANGES <==> f in e.status && f in INDEX_CHANGES;
    e.status != CURRENT
    && (IndexNew in e.status || IndexModified in e.status || IndexDeleted in e.status
        || IndexRenamed in e.status || IndexTypechange in e.status)
  }

  /**
   * The filter of `unstaged_files`: a tracked file changed in the working
   * tree. A new, untracked file (`WT_NEW`) does not count.
   */
  predicate IsUnstaged(e: StatusEntry)
    ensures IsUnstaged(e) <==> e.indexToWorkdir.Some? && e.status * WORKTREE_CHANGES != {}
    ensures WtNew !in WORKTREE_CHANGES
  {
    assert e.status * WORKTREE_CHANGES != {} ==> exists f :: f in e.status * WORKTREE_CHANGES;
    assert forall f :: f in WORKTREE_CHANGES <==>
      f == WtModified || f == WtDeleted || f == WtRenamed || f == WtTypechange;
    assert forall f :: f in e.status * WORKTREE_CHANGES <==> f in e.status && f in WORKTREE_CHANGES;
    e.status != CURRENT
    && e.indexToWorkdir.Some?
    && (WtModified in e.status || WtDeleted in e.status || WtRenamed in e.status || WtTypechange in e.status)
  }

  /** The path an entry contributes through one of its deltas, if any. */
  function DeltaPath(delta: Option<DiffDelta>): Option<string>
  {
    match delta
    case None => None
    case Some(d) => d.newFilePath
  }

  /** `staged_files`: the new paths of the staged entries that have one, in order. */
  function StagedFiles(entries: seq<StatusEntry>): (paths: seq<string>)
    ensures |paths| > 0 <==> exists i :: 0 <= i < |entries| && IsStaged(entries[i]) && DeltaPath(entries[i].headToIndex).Some?
  {
    if entries == [] then []
    else
      var rest := StagedFiles(entries[1..]);
      assert forall i :: 0 < i < |entries| ==> entries[i] == entries[1..][i - 1];
      var e := entries[0];
      if IsStaged(e) && DeltaPath(e.headToIndex).Some? then [DeltaPath(e.headToIndex).value] + rest else rest
  }

  /** `unstaged_files`: the new paths of the unstaged entries that have one, in order. */
  function UnstagedFiles(entries: seq<StatusEntry>): (paths: seq<string>)
    ensures |paths| > 0 <==> exists i :: 0 <= i < |entries| && IsUnstaged(entries[i]) && DeltaPath(entries[i].indexToWorkdir).Some?
  {
    if entries == [] then []
    else
      var rest := UnstagedFiles(entries[1..]);
      assert forall i :: 0 < i < |entries| ==> entries[i] == entries[1..][i - 1];
      var e := entries[0];
      if IsUnstaged(e) && DeltaPath(e.indexToWorkdir).Some? then [DeltaPath(e.indexToWorkdir).value] + rest else rest
  }

  const BARE_REPOSITORY_ERROR: string := "cannot report status on bare repository"

  /** `is_dirty`: a bare repository has no status; otherwise, is either list non-empty. */
  function IsDirty(isBare: bool, entries: seq<StatusEntry>): (r: Result<bool, string>)
    ensures isBare <==> r.Err?
    ensures r.Err? ==> r.error == BARE_REPOSITORY_ERROR
    ensures r.Ok? ==> (r.value <==> |StagedFiles(entries)| > 0 || |UnstagedFiles(entries)| > 0)
  {
    if isBare then Err(BARE_REPOSITORY_ERROR)
    else Ok(|StagedFiles(entries)| > 0 || |UnstagedFiles(entries)| > 0)
  }

  /**
   * A working copy is dirty exactly when some entry is staged or unstaged
   * with a known path; in particular, untracked and ignored files alone
   * never make it dirty.
   */
  lemma DirtyIffChangedEntry(entries: seq<StatusEntry>)
    ensures IsDirty(false, entries) == Ok(
              exists i :: 0 <= i < |entries|
                && ((IsStaged(entries[i]) && DeltaPath(entries[i].headToIndex).Some?)
                    || (IsUnstaged(entries[i]) && DeltaPath(entries[i].indexToWorkdir).Some?)))
    ensures (forall i :: 0 <= i < |entries| ==> entries[i].status <= {WtNew, Ignored})
              ==> IsDirty(false, entries) == Ok(false)
  {
  }
}
