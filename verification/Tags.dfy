/**
 Listing of commit tags: annotations are fetched in one batch for all annotated tags and
 merged into the tag list in place, dropping annotated tags that do not point to a commit.
 */
module Tags {

  datatype Option<+T> = None | Some(value: T)

  datatype Tag = Tag(
    name: string, sha: string, isAnnotated: bool, title: string, message: string,
    tagger: Option<string>, signedData: Option<string>, commit: Option<string>)

  datatype Annotation = Annotation(
    targetType: string, targetSha: string, title: string, message: string, tagger: string, signedData: Option<string>)

  const COMMIT := "commit"

  /** The repository: annotations by tag SHA. */
  datatype Repo = Repo(annotations: map<string, Annotation>)

  // ---- the reference: an order-preserving filter, each tag joined with its own annotation ----

  predicate Wanted(t: Tag, repo: Repo) {
    t.isAnnotated ==> t.sha in repo.annotations && repo.annotations[t.sha].targetType == COMMIT
  }

  function Joined(t: Tag, repo: Repo): Tag
    requires Wanted(t, repo)
  {
    if !t.isAnnotated then t
    else
      var a := repo.annotations[t.sha];
      t.(message := a.message, title := a.title, tagger := Some(a.tagger), signedData := a.signedData)
  }

  /** The commit the tag stands for: its own object, or what its annotation points to. */
  function CommitSha(t: Tag, repo: Repo): string
    requires Wanted(t, repo)
  {
    if t.isAnnotated then repo.annotations[t.sha].targetSha else t.sha
  }

  function ListedTags(tags: seq<Tag>, repo: Repo): seq<Tag> {
    if tags == [] then []
    else
      var t := tags[|tags| - 1];
      ListedTags(tags[..|tags| - 1], repo) + if Wanted(t, repo) then [Joined(t, repo)] else []
  }

  function ListedShas(tags: seq<Tag>, repo: Repo): seq<string> {
    if tags == [] then []
    else
      var t := tags[|tags| - 1];
      ListedShas(tags[..|tags| - 1], repo) + if Wanted(t, repo) then [CommitSha(t, repo)] else []
  }

  /** The place of the `j`-th tag in the result: behind the wanted tags before it. */
  function Place(tags: seq<Tag>, repo: Repo, j: nat): nat
    requires j <= |tags|
  {
    |ListedTags(tags[..j], repo)|
  }

  lemma {:induction false} ListsAligned(tags: seq<Tag>, repo: Repo)
    ensures |ListedTags(tags, repo)| == |ListedShas(tags, repo)| <= |tags|
  {
    if tags != [] {
      ListsAligned(tags[..|tags| - 1], repo);
    }
  }

  /**
   The reference is an order-preserving filter, and the two lists stay aligned: every
   wanted tag is found, joined with its own annotation and next to its own commit, behind
   exactly the wanted tags that precede it.
   */
  lemma {:induction false} WantedTagIsListed(tags: seq<Tag>, repo: Repo, j: nat)
    requires j < |tags| && Wanted(tags[j], repo)
    ensures Place(tags, repo, j) < |ListedTags(tags, repo)| == |ListedShas(tags, repo)|
    ensures ListedTags(tags, repo)[Place(tags, repo, j)] == Joined(tags[j], repo)
    ensures ListedShas(tags, repo)[Place(tags, repo, j)] == CommitSha(tags[j], repo)
    decreases |tags|
  {
    var front := tags[..|tags| - 1];
    ListsAligned(tags, repo);
    ListsAligned(front, repo);
    if j < |front| {
      assert front[..j] == tags[..j];
      WantedTagIsListed(front, repo, j);
    } else {
      assert tags[..j] == front;
    }
  }

  /** Nothing else is listed: every place belongs to a wanted tag. */
  lemma {:induction false} ListedTagIsWanted(tags: seq<Tag>, repo: Repo, i: nat) returns (j: nat)
    requires i < |ListedTags(tags, repo)|
    ensures j < |tags| && Wanted(tags[j], repo) && Place(tags, repo, j) == i
    decreases |tags|
  {
    var front := tags[..|tags| - 1];
    if i < |ListedTags(front, repo)| {
      j := ListedTagIsWanted(front, repo, i);
      assert front[..j] == tags[..j];
    } else {
      j := |front|;
      assert tags[..j] == front;
    }
  }

  /**
   What a listed tag shows. A lightweight tag is listed as it is, next to its own object. An
   annotated tag is listed exactly if its annotation is of a commit, with the title, message,
   tagger and signature of that annotation and next to that commit.
   */
  lemma ListedTagShowsItsAnnotation(tags: seq<Tag>, repo: Repo, j: nat)
    requires j < |tags| && (tags[j].isAnnotated ==> tags[j].sha in repo.annotations)
    ensures
      var t := tags[j];
      if t.isAnnotated && repo.annotations[t.sha].targetType != "commit" then
        ListedTags(tags[..j + 1], repo) == ListedTags(tags[..j], repo)
      else
        var i := Place(tags, repo, j);
        && i < |ListedTags(tags, repo)| == |ListedShas(tags, repo)|
        && var shown, sha := ListedTags(tags, repo)[i], ListedShas(tags, repo)[i];
           && shown.name == t.name && shown.sha == t.sha && shown.isAnnotated == t.isAnnotated
           && shown.commit == t.commit
           && (!t.isAnnotated ==> shown == t && sha == t.sha)
           && (t.isAnnotated ==>
                 var a := repo.annotations[t.sha];
                 && shown.title == a.title && shown.message == a.message && shown.tagger == Some(a.tagger)
                 && shown.signedData == a.signedData && sha == a.targetSha)
  {
    if Wanted(tags[j], repo) {
      WantedTagIsListed(tags, repo, j);
    } else {
      assert tags[..j + 1][..j] == tags[..j];
    }
  }

  // ---- the batch: annotations arrive as a list, in the order of the annotated tags ----

  function AnnotatedShas(tags: seq<Tag>): seq<string> {
    if tags == [] then []
    else
      AnnotatedShas(tags[..|tags| - 1]) + if tags[|tags| - 1].isAnnotated then [tags[|tags| - 1].sha] else []
  }

  /** The list matches the annotated tags one to one. */
  ghost predicate Matches(tags: seq<Tag>, aTags: seq<Annotation>, repo: Repo) {
    var shas := AnnotatedShas(tags);
    && |aTags| == |shas|
    && forall k :: 0 <= k < |shas| ==> shas[k] in repo.annotations && aTags[k] == repo.annotations[shas[k]]
  }

  lemma {:induction false} AnnotatedPrefix(tags: seq<Tag>, k: nat)
    requires k <= |tags|
    ensures AnnotatedShas(tags[..k]) <= AnnotatedShas(tags)
    ensures k < |tags| && tags[k].isAnnotated ==>
      && |AnnotatedShas(tags[..k])| < |AnnotatedShas(tags)|
      && AnnotatedShas(tags)[|AnnotatedShas(tags[..k])|] == tags[k].sha
    decreases |tags|
  {
    if k == |tags| {
      assert tags[..k] == tags;
    } else {
      var front := tags[..|tags| - 1];
      assert front[..k] == tags[..k];
      AnnotatedPrefix(front, k);
      if k == |tags| - 1 {
        assert tags[..k] == front;
      }
    }
  }

  /** The annotation read at this point is the tag's own. */
  lemma OwnAnnotation(was: seq<Tag>, aTags: seq<Annotation>, repo: Repo, k: nat)
    requires Matches(was, aTags, repo) && k < |was|
    ensures
      var ai := |AnnotatedShas(was[..k])|;
      if was[k].isAnnotated then
        && ai < |aTags| && was[k].sha in repo.annotations && aTags[ai] == repo.annotations[was[k].sha]
        && |AnnotatedShas(was[..k + 1])| == ai + 1
      else |AnnotatedShas(was[..k + 1])| == ai
  {
    AnnotatedPrefix(was, k);
    assert was[..k + 1][..k] == was[..k];
  }

  /** What reading one more tag adds to the result. */
  lemma OneMore(was: seq<Tag>, repo: Repo, k: nat)
    requires k < |was|
    ensures
      var t := was[k];
      && ListedTags(was[..k + 1], repo) ==
         ListedTags(was[..k], repo) + (if Wanted(t, repo) then [Joined(t, repo)] else [])
      && ListedShas(was[..k + 1], repo) ==
         ListedShas(was[..k], repo) + (if Wanted(t, repo) then [CommitSha(t, repo)] else [])
  {
    assert was[..k + 1][..k] == was[..k];
  }

  /** One round of the loop: reads at `ri`, takes an annotation at `ai` if there is one to take, writes at `wi`. */
  method MoveOne(
    tags: array<Tag>, commitShas: array<string>, aTags: seq<Annotation>, ai: nat, ri: nat, wi: nat, ghost repo: Repo)
    returns (ai': nat, wi': nat)
    requires wi <= ri < tags.Length == commitShas.Length && tags[ri].sha == commitShas[ri]
    requires tags[ri].isAnnotated ==>
      ai < |aTags| && tags[ri].sha in repo.annotations && aTags[ai] == repo.annotations[tags[ri].sha]
    modifies tags, commitShas
    ensures ai' == if old(tags[ri]).isAnnotated then ai + 1 else ai
    ensures wi <= wi' <= wi + 1
    ensures
      var t := old(tags[ri]);
      && tags[..wi'] == old(tags[..wi]) + (if Wanted(t, repo) then [Joined(t, repo)] else [])
      && commitShas[..wi'] == old(commitShas[..wi]) + (if Wanted(t, repo) then [CommitSha(t, repo)] else [])
    ensures tags[ri + 1..] == old(tags[ri + 1..]) && commitShas[ri + 1..] == old(commitShas[ri + 1..])
  {
    tags[wi] := tags[ri];
    commitShas[wi] := commitShas[ri];
    if !tags[ri].isAnnotated {
      return ai, wi + 1;
    }
    if aTags[ai].targetType != COMMIT {
      return ai + 1, wi;
    }
    commitShas[wi] := aTags[ai].targetSha;
    tags[wi] := tags[wi].(message := aTags[ai].message, title := aTags[ai].title,
                          tagger := Some(aTags[ai].tagger), signedData := aTags[ai].signedData);
    return ai + 1, wi + 1;
  }

  /** The three-index loop over the tags and their commits. */
  method Compact(tags: array<Tag>, commitShas: array<string>, aTags: seq<Annotation>, ghost repo: Repo)
    returns (wi: nat)
    requires tags.Length == commitShas.Length
    requires Matches(tags[..], aTags, repo)
    requires forall i :: 0 <= i < tags.Length ==> commitShas[i] == tags[i].sha
    modifies tags, commitShas
    ensures wi <= tags.Length
    ensures tags[..wi] == ListedTags(old(tags[..]), repo)
    ensures commitShas[..wi] == ListedShas(old(tags[..]), repo)
  {
    ghost var was, shas := tags[..], commitShas[..];
    var ai, ri := 0, 0;
    wi := 0;
    while ri < tags.Length
      invariant wi <= ri <= tags.Length
      invariant ai == |AnnotatedShas(was[..ri])|
      invariant tags[ri..] == was[ri..] && commitShas[ri..] == shas[ri..]
      invariant tags[..wi] == ListedTags(was[..ri], repo)
      invariant commitShas[..wi] == ListedShas(was[..ri], repo)
    {
      OneMore(was, repo, ri);
      OwnAnnotation(was, aTags, repo, ri);
      assert tags[ri] == was[ri] && commitShas[ri] == shas[ri];
      ai, wi := MoveOne(tags, commitShas, aTags, ai, ri, wi, repo);
      assert was[ri + 1..] == was[ri..][1..] && shas[ri + 1..] == shas[ri..][1..];
      ri := ri + 1;
    }
    assert was[..ri] == was;
  }

  /** The lists built before the batch is fetched. */
  method CollectShas(tags: array<Tag>) returns (annotated: seq<string>, commitShas: array<string>)
    ensures annotated == AnnotatedShas(tags[..])
    ensures fresh(commitShas) && commitShas.Length == tags.Length
    ensures forall i :: 0 <= i < tags.Length ==> commitShas[i] == tags[i].sha
  {
    annotated := [];
    commitShas := new string[tags.Length];
    for i := 0 to tags.Length
      invariant annotated == AnnotatedShas(tags[..i])
      invariant forall k :: 0 <= k < i ==> commitShas[k] == tags[k].sha
    {
      assert tags[..i + 1][..i] == tags[..i];
      commitShas[i] := tags[i].sha;
      if tags[i].isAnnotated {
        annotated := annotated + [tags[i].sha];
      }
    }
    assert tags[..tags.Length] == tags[..];
  }

  lemma NothingAnnotatedBefore(tags: seq<Tag>)
    requires AnnotatedShas(tags) == [] && tags != []
    ensures !tags[|tags| - 1].isAnnotated && AnnotatedShas(tags[..|tags| - 1]) == []
  {
    assert |AnnotatedShas(tags)| == 0;
  }

  lemma {:induction false} NothingAnnotated(tags: seq<Tag>, repo: Repo)
    requires AnnotatedShas(tags) == []
    ensures ListedTags(tags, repo) == tags
  {
    if tags != [] {
      var n := |tags| - 1;
      NothingAnnotatedBefore(tags);
      NothingAnnotated(tags[..n], repo);
      assert tags == tags[..n] + [tags[n]];
    }
  }

  lemma {:induction false} NoShaReplaced(tags: seq<Tag>, repo: Repo, i: nat)
    requires AnnotatedShas(tags) == [] && i < |tags|
    ensures |ListedShas(tags, repo)| == |tags| && ListedShas(tags, repo)[i] == tags[i].sha
    decreases |tags|
  {
    var n := |tags| - 1;
    NothingAnnotatedBefore(tags);
    if n > 0 {
      NoShaReplaced(tags[..n], repo, if i < n then i else 0);
    }
  }

  /**
   The listing up to the commits: given the batch of annotations for the collected SHAs,
   the first `n` places of the two arrays are the reference lists.
   */
  method ListTags(tags: array<Tag>, fetch: seq<string> -> seq<Annotation>, ghost repo: Repo)
    returns (n: nat, commitShas: array<string>)
    requires Matches(tags[..], fetch(AnnotatedShas(tags[..])), repo)
    modifies tags
    ensures n <= tags.Length == commitShas.Length
    ensures tags[..n] == ListedTags(old(tags[..]), repo)
    ensures commitShas[..n] == ListedShas(old(tags[..]), repo)
  {
    var annotated;
    annotated, commitShas := CollectShas(tags);
    if |annotated| > 0 {
      n := Compact(tags, commitShas, fetch(annotated), repo);
    } else {
      NothingAnnotated(tags[..], repo);
      ListsAligned(tags[..], repo);
      forall i | 0 <= i < tags.Length
        ensures ListedShas(tags[..], repo)[i] == commitShas[i]
      {
        NoShaReplaced(tags[..], repo, i);
      }
      n := tags.Length;
    }
  }

  /** Fetched commits are attached by position: each tag gets the commit it stands for. */
  method AttachCommits(tags: array<Tag>, n: nat, gitCommits: seq<string>)
    requires n <= tags.Length && |gitCommits| <= n
    modifies tags
    ensures forall i :: 0 <= i < |gitCommits| ==> tags[i] == old(tags[i]).(commit := Some(gitCommits[i]))
    ensures forall i :: |gitCommits| <= i < tags.Length ==> tags[i] == old(tags[i])
  {
    for i := 0 to |gitCommits|
      invariant forall k :: 0 <= k < i ==> tags[k] == old(tags[k]).(commit := Some(gitCommits[k]))
      invariant forall k :: i <= k < tags.Length ==> tags[k] == old(tags[k])
    {
      tags[i] := tags[i].(commit := Some(gitCommits[i]));
    }
  }
}
