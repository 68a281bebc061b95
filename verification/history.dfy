/** The environment filter that `fix_email` hands to `git filter-branch`:
    for every commit, a committer whose email is the wrong one gets the new
    name and email, and, independently, so does an author whose email is
    the wrong one. The filter sees only the four identity variables, so
    everything else about a commit stays as it was. */
module History {
  import opened Basics

  /** What survives the interactive phase: the email to replace, and the
      name and email to put in its place. */
  datatype Directive = Directive(wrongEmail: string, newName: string, newEmail: string)

  /** A commit as the filter sees it: its author and committer identities,
      and everything else (tree, parents, dates, message) as one value. */
  datatype Commit = Commit(author: Identity, committer: Identity, rest: string)

  /** The identity one branch of the filter leaves in place: either the
      original one or the new one, and the wrong email only survives when
      it is also the new email. */
  function FilterIdentity(d: Directive, who: Identity): (r: Identity)
    ensures r == who || r == Identity(d.newName, d.newEmail)
    ensures r.email == d.wrongEmail ==> r.email == d.newEmail
  {
    if who.email == d.wrongEmail then Identity(d.newName, d.newEmail) else who
  }

  /** One commit after the filter. */
  function FilterCommit(d: Directive, c: Commit): (r: Commit)
    ensures r.rest == c.rest
  {
    Commit(FilterIdentity(d, c.author), FilterIdentity(d, c.committer), c.rest)
  }

  /** Each side is replaced by the new identity exactly when its own email
      is the wrong one, whatever the other side holds; a commit whose two
      emails are both different from the wrong one is left as it was. */
  lemma FilterCommitSides(d: Directive, c: Commit)
    ensures c.committer.email == d.wrongEmail ==> FilterCommit(d, c).committer == Identity(d.newName, d.newEmail)
    ensures c.committer.email != d.wrongEmail ==> FilterCommit(d, c).committer == c.committer
    ensures c.author.email == d.wrongEmail ==> FilterCommit(d, c).author == Identity(d.newName, d.newEmail)
    ensures c.author.email != d.wrongEmail ==> FilterCommit(d, c).author == c.author
    ensures c.author.email != d.wrongEmail && c.committer.email != d.wrongEmail ==> FilterCommit(d, c) == c
  {
  }

  /** The author's result does not depend on the committer, nor the
      committer's on the author. */
  lemma FilterSidesIndependent(d: Directive, c: Commit, c': Commit)
    ensures c.author == c'.author ==> FilterCommit(d, c).author == FilterCommit(d, c').author
    ensures c.committer == c'.committer ==> FilterCommit(d, c).committer == FilterCommit(d, c').committer
  {
  }

  /** Filtering a commit a second time changes nothing. */
  lemma FilterCommitIdempotent(d: Directive, c: Commit)
    ensures FilterCommit(d, FilterCommit(d, c)) == FilterCommit(d, c)
  {
  }

  /** Every commit of the rewritten history, in the same order. */
  function RewriteHistory(d: Directive, commits: seq<Commit>): (r: seq<Commit>)
    ensures |r| == |commits|
    ensures forall i :: 0 <= i < |r| ==> r[i].rest == commits[i].rest
  {
    if commits == [] then []
    else [FilterCommit(d, commits[0])] + RewriteHistory(d, commits[1..])
  }

  /** The i-th rewritten commit is the i-th commit after the filter. */
  lemma {:induction false} RewriteHistoryAt(d: Directive, commits: seq<Commit>, i: nat)
    requires i < |commits|
    ensures RewriteHistory(d, commits)[i] == FilterCommit(d, commits[i])
  {
    if i > 0 {
      RewriteHistoryAt(d, commits[1..], i - 1);
    }
  }

  /** Rewriting an already rewritten history changes nothing. */
  lemma {:induction false} RewriteHistoryIdempotent(d: Directive, commits: seq<Commit>)
    ensures RewriteHistory(d, RewriteHistory(d, commits)) == RewriteHistory(d, commits)
  {
    if commits != [] {
      var once := RewriteHistory(d, commits);
      assert once[1..] == RewriteHistory(d, commits[1..]);
      RewriteHistoryIdempotent(d, commits[1..]);
      FilterCommitIdempotent(d, commits[0]);
    }
  }

  /** Unless the new email is the wrong one itself, no author or committer
      of the rewritten history carries the wrong email, and a commit that
      carried it on neither side is unchanged. */
  lemma RewriteHistoryClean(d: Directive, commits: seq<Commit>)
    ensures d.newEmail != d.wrongEmail ==>
              forall c :: c in RewriteHistory(d, commits) ==>
                c.author.email != d.wrongEmail && c.committer.email != d.wrongEmail
    ensures forall i :: 0 <= i < |commits| && commits[i].author.email != d.wrongEmail
                          && commits[i].committer.email != d.wrongEmail ==>
              RewriteHistory(d, commits)[i] == commits[i]
  {
    forall i | 0 <= i < |commits| {
      RewriteHistoryAt(d, commits, i);
    }
  }

  /** Three commits by A, B and A with B's email replaced by Alice's name
      and A's email: only the middle commit changes, on both sides. */
  lemma RewriteScenario(a: Identity, b: Identity, commits: seq<Commit>)
    requires a == Identity("A", "a@x.com") && b == Identity("B", "b@x.com")
    requires commits == [Commit(a, a, "1"), Commit(b, b, "2"), Commit(a, a, "3")]
    ensures RewriteHistory(Directive("b@x.com", "Alice", "a@x.com"), commits)
            == [Commit(a, a, "1"), Commit(Identity("Alice", "a@x.com"), Identity("Alice", "a@x.com"), "2"), Commit(a, a, "3")]
  {
    var d := Directive("b@x.com", "Alice", "a@x.com");
    RewriteHistoryAt(d, commits, 0);
    RewriteHistoryAt(d, commits, 1);
    RewriteHistoryAt(d, commits, 2);
  }
}
