/** The data a Comment carries (praw/models/reddit/comment.py) as a finite
    tree of values, the Submission that indexes the comments linked to it,
    and the specification functions the operations in module Comments are
    proved against: sizes, the order in which `refresh` visits a reply tree,
    reachability, and what assigning `submission` does to a tree and to the
    index. */
module CommentModel {
  import opened Values
  import opened Strings
  import Redditors

  /** A stored comment attribute: a plain value, the outcome of
      `Redditor.from_data` for `author`, or the subreddit built from a
      display name for `subreddit`. */
  datatype Attr =
    | Plain(v: Value)
    | Author(user: Option<Redditors.Attrs>)
    | SubredditRef(displayName: Value)

  /** A comment. `submission` is the `_submission` back-link (null for None);
      `replies` is `_replies`, either the raw list or the CommentForest it was
      turned into; `fetched` is `_fetched`. `attrs` holds every other attribute. */
  datatype Comment = Comment(
    id: string,
    attrs: map<string, Attr>,
    replies: Replies,
    submission: Submission?,
    fetched: bool)

  datatype Replies =
    | Raw(items: seq<Node>)
    | Forest(forestSubmission: Submission, items: seq<Node>)

  /** An entry of a reply list: a comment, or a MoreComments placeholder for a
      collapsed subtree, which is a leaf here. */
  datatype Node = CommentNode(comment: Comment) | MoreComments(moreId: string)
  {
    function Id(): string
    {
      match this
      case CommentNode(c) => c.id
      case MoreComments(i) => i
    }
  }

  /** The configuration the client threads through: the kind prefixes of
      comments and submissions (`"t1"`, `"t3"`), URL path splitting
      (`RedditBase._url_parts`) and the objectifier applied to a raw `replies`
      payload (`objectify(data=value).children`). */
  datatype Config = Config(
    commentKind: string,
    submissionKind: string,
    urlParts: string -> Result<seq<string>>,
    replyChildren: Value -> seq<Node>)

  /** Kinds are short tags without an underscore, and they differ. */
  predicate KindsWellFormed(cfg: Config)
  {
    '_' !in cfg.commentKind && '_' !in cfg.submissionKind && cfg.commentKind != cfg.submissionKind
  }

  /** A Submission as far as comments see it: its id and `_comments_by_id`. */
  class Submission {
    const id: string
    var commentsById: map<string, Comment>

    /** Every stored comment sits under its own fullname and links back here. */
    ghost predicate IndexValid(cfg: Config)
      reads this
    {
      IndexedUnder(cfg, commentsById, this)
    }

    constructor (id: string)
      ensures this.id == id && commentsById == map[]
    {
      this.id := id;
      commentsById := map[];
    }
  }

  /** `comment.fullname`: kind, underscore, id. */
  function Fullname(cfg: Config, c: Comment): string
  {
    cfg.commentKind + "_" + c.id
  }

  function SubmissionFullname(cfg: Config, s: Submission): string
  {
    cfg.submissionKind + "_" + s.id
  }

  // ---------------------------------------------------------------- sizes

  function CSize(c: Comment): (n: nat)
    ensures n >= 1
    decreases c, 1
  {
    1 + ForestSize(c.replies.items)
  }

  function NSize(n: Node): (size: nat)
    ensures size >= 1
    ensures n.CommentNode? ==> size == CSize(n.comment)
    decreases n, 2
  {
    match n
    case CommentNode(c) => CSize(c)
    case MoreComments(_) => 1
  }

  function ForestSize(ns: seq<Node>): (size: nat)
    decreases ns, 0
  {
    if ns == [] then 0 else ForestSize(ns[..|ns| - 1]) + NSize(ns[|ns| - 1])
  }

  lemma {:induction false} ForestSizeAppend(a: seq<Node>, b: seq<Node>)
    ensures ForestSize(a + b) == ForestSize(a) + ForestSize(b)
    decreases |b|
  {
    if b != [] {
      var ab := a + b;
      assert ab[..|ab| - 1] == a + b[..|b| - 1];
      assert ab[|ab| - 1] == b[|b| - 1];
      ForestSizeAppend(a, b[..|b| - 1]);
    } else {
      assert a + b == a;
    }
  }

  /** Each entry of a reply list is no larger than the whole list. */
  lemma {:induction false} ForestSizeBound(ns: seq<Node>, i: int)
    requires 0 <= i < |ns|
    ensures NSize(ns[i]) <= ForestSize(ns)
    decreases |ns|
  {
    if i < |ns| - 1 {
      ForestSizeBound(ns[..|ns| - 1], i);
    }
  }

  /** What `refresh` pushes after popping a node: a comment's replies. */
  function Children(n: Node): (ch: seq<Node>)
    ensures ForestSize(ch) < NSize(n)
  {
    if n.CommentNode? then n.comment.replies.items else []
  }

  // ------------------------------------------------- reachable nodes, in order

  /** Every node reachable through comment replies, in pre-order. */
  function Flatten(ns: seq<Node>): seq<Node>
    decreases ForestSize(ns), 1
  {
    if ns == [] then [] else Flatten(ns[..|ns| - 1]) + FlattenNode(ns[|ns| - 1])
  }

  function FlattenNode(n: Node): seq<Node>
    decreases NSize(n), 0
  {
    [n] + Flatten(Children(n))
  }

  lemma {:induction false} FlattenAppend(a: seq<Node>, b: seq<Node>)
    ensures Flatten(a + b) == Flatten(a) + Flatten(b)
    decreases |b|
  {
    if b != [] {
      var ab := a + b;
      assert ab[..|ab| - 1] == a + b[..|b| - 1];
      assert ab[|ab| - 1] == b[|b| - 1];
      FlattenAppend(a, b[..|b| - 1]);
    } else {
      assert a + b == a;
    }
  }

  /** The order in which `refresh` pops nodes off its stack: the top (last)
      entry first, then the stack with that entry replaced by its replies. */
  function Visit(stack: seq<Node>): seq<Node>
    decreases ForestSize(stack)
  {
    if stack == [] then []
    else
      var n := stack[|stack| - 1];
      var rest := stack[..|stack| - 1];
      ForestSizeAppend(rest, Children(n));
      [n] + Visit(rest + Children(n))
  }

  /** The stack traversal pops every reachable node exactly once. */
  lemma {:induction false} VisitIsPermutation(stack: seq<Node>)
    ensures multiset(Visit(stack)) == multiset(Flatten(stack))
    decreases ForestSize(stack)
  {
    if stack != [] {
      var n := stack[|stack| - 1];
      var rest := stack[..|stack| - 1];
      ForestSizeAppend(rest, Children(n));
      VisitIsPermutation(rest + Children(n));
      FlattenAppend(rest, Children(n));
    }
  }

  /** Where `refresh`'s loop stops, given the node popped last and the nodes
      still to be popped in order: at a node with the target id, or after the
      last node when none has it. */
  function StopFrom(last: Option<Node>, pending: seq<Node>, target: string): Option<Node>
    decreases |pending|
  {
    if pending == [] || (last.Some? && last.value.Id() == target) then last
    else StopFrom(Some(pending[0]), pending[1..], target)
  }

  /** The search stops on a node with the target id exactly when one is
      pending, and then on the first such node. */
  lemma {:induction false} StopFromFirst(last: Option<Node>, pending: seq<Node>, target: string)
    requires last.None? || last.value.Id() != target
    ensures var r := StopFrom(last, pending, target);
      && (r.Some? && r.value.Id() == target <==> exists i :: 0 <= i < |pending| && pending[i].Id() == target)
      && (r.Some? && r.value.Id() == target ==>
            exists k :: 0 <= k < |pending| && r.value == pending[k] && forall j :: 0 <= j < k ==> pending[j].Id() != target)
      && (r.None? <==> last.None? && pending == [])
      && (r.Some? ==> r == last || r.value in pending)
    decreases |pending|
  {
    if pending != [] {
      if pending[0].Id() == target {
        assert StopFrom(Some(pending[0]), pending[1..], target) == Some(pending[0]);
      } else {
        StopFromFirst(Some(pending[0]), pending[1..], target);
        var r := StopFrom(last, pending, target);
        if r.Some? && r.value.Id() == target {
          var k :| 0 <= k < |pending[1..]| && r.value == pending[1..][k] && forall j :: 0 <= j < k ==> pending[1..][j].Id() != target;
          assert r.value == pending[k + 1];
          assert forall j :: 0 <= j < k + 1 ==> pending[j].Id() != target by {
            forall j | 0 <= j < k + 1 ensures pending[j].Id() != target {
              if j > 0 { assert pending[j] == pending[1..][j - 1]; }
            }
          }
        }
        if exists i :: 0 <= i < |pending| && pending[i].Id() == target {
          var i :| 0 <= i < |pending| && pending[i].Id() == target;
          assert pending[1..][i - 1] == pending[i];
        }
      }
    }
  }

  /** A node with the target id is reachable through comment replies. */
  predicate Reachable(ns: seq<Node>, target: string)
  {
    exists d :: d in Flatten(ns) && d.Id() == target
  }

  /** The stack search started on `ns` ends on a node with the target id
      exactly when such a node is reachable, and then on the first such node
      in the stack's popping order. */
  lemma SearchFindsReachable(ns: seq<Node>, target: string)
    ensures var r := StopFrom(None, Visit(ns), target);
      && (r.None? <==> ns == [])
      && (r.Some? ==> r.value in Flatten(ns))
      && (r.Some? && r.value.Id() == target <==> Reachable(ns, target))
      && (r.Some? && r.value.Id() == target ==>
            exists k :: 0 <= k < |Visit(ns)| && r.value == Visit(ns)[k] && forall j :: 0 <= j < k ==> Visit(ns)[j].Id() != target)
  {
    var vs := Visit(ns);
    StopFromFirst(None, vs, target);
    VisitIsPermutation(ns);
    if Reachable(ns, target) {
      var d :| d in Flatten(ns) && d.Id() == target;
      assert d in multiset(Flatten(ns));
      assert d in vs;
      var i :| 0 <= i < |vs| && vs[i] == d;
    }
    if exists i :: 0 <= i < |vs| && vs[i].Id() == target {
      var i :| 0 <= i < |vs| && vs[i].Id() == target;
      assert vs[i] in multiset(vs);
      assert vs[i] in Flatten(ns);
    }
    if ns == [] {
      assert vs == [];
    } else {
      assert vs != [];
    }
    var r := StopFrom(None, vs, target);
    if r.Some? {
      assert r.value in multiset(vs);
    }
  }

  // ---------------------------------------- assigning `submission` to a tree

  /** A comment after `comment.submission = s`: linked to `s`, its raw reply
      list turned into a forest of `s`, every reply comment linked the same way. */
  function Attach(c: Comment, s: Submission): Comment
    decreases CSize(c), 0
  {
    c.(submission := s,
       replies := Forest(if c.replies.Raw? then s else c.replies.forestSubmission,
                         AttachAll(c.replies.items, s)))
  }

  function AttachNode(n: Node, s: Submission): Node
    decreases NSize(n), 1
  {
    match n
    case CommentNode(k) => CommentNode(Attach(k, s))
    case MoreComments(i) => MoreComments(i)
  }

  function AttachAll(ns: seq<Node>, s: Submission): seq<Node>
    decreases ForestSize(ns), 2
  {
    if ns == [] then []
    else AttachAll(ns[..|ns| - 1], s) + [AttachNode(ns[|ns| - 1], s)]
  }

  /** The index after registering an already linked comment and its
      descendants, parent before replies, replies in order. */
  function IndexComment(cfg: Config, m: map<string, Comment>, linked: Comment): map<string, Comment>
    decreases CSize(linked), 0
  {
    IndexForest(cfg, m[Fullname(cfg, linked) := linked], linked.replies.items)
  }

  function IndexForest(cfg: Config, m: map<string, Comment>, ns: seq<Node>): map<string, Comment>
    decreases ForestSize(ns), 1
  {
    if ns == [] then m
    else
      var m' := IndexForest(cfg, m, ns[..|ns| - 1]);
      var last := ns[|ns| - 1];
      match last
      case CommentNode(k) => assert CSize(k) == NSize(last) <= ForestSize(ns); IndexComment(cfg, m', k)
      case MoreComments(_) => m'
  }

  /** The fullnames of the comments among `vs`. */
  function Fullnames(cfg: Config, vs: seq<Node>): set<string>
  {
    set d | d in vs && d.CommentNode? :: Fullname(cfg, d.comment)
  }

  lemma FullnamesSingle(cfg: Config, n: Node)
    ensures Fullnames(cfg, [n]) == if n.CommentNode? then {Fullname(cfg, n.comment)} else {}
  {
    assert forall d :: d in [n] <==> d == n;
  }

  lemma FullnamesAppend(cfg: Config, a: seq<Node>, b: seq<Node>)
    ensures Fullnames(cfg, a + b) == Fullnames(cfg, a) + Fullnames(cfg, b)
  {
    assert forall d :: d in a + b <==> d in a || d in b;
  }

  /** Linking changes neither ids nor which entries are comments, so it keeps
      the set of fullnames in a tree. */
  lemma {:induction false} AttachKeepsFullnames(cfg: Config, ns: seq<Node>, s: Submission)
    ensures Fullnames(cfg, Flatten(AttachAll(ns, s))) == Fullnames(cfg, Flatten(ns))
    decreases ForestSize(ns), 2
  {
    if ns != [] {
      var pre, last := ns[..|ns| - 1], ns[|ns| - 1];
      var lastA := AttachNode(last, s);
      var nsA := AttachAll(ns, s);
      assert nsA[..|nsA| - 1] == AttachAll(pre, s) && nsA[|nsA| - 1] == lastA;
      AttachKeepsFullnames(cfg, pre, s);
      AttachNodeKeepsFullnames(cfg, last, s);
      FullnamesAppend(cfg, Flatten(AttachAll(pre, s)), FlattenNode(lastA));
      FullnamesAppend(cfg, Flatten(pre), FlattenNode(last));
    }
  }

  lemma {:induction false} AttachNodeKeepsFullnames(cfg: Config, n: Node, s: Submission)
    ensures Fullnames(cfg, FlattenNode(AttachNode(n, s))) == Fullnames(cfg, FlattenNode(n))
    decreases NSize(n), 1
  {
    var nA := AttachNode(n, s);
    FullnamesAppend(cfg, [nA], Flatten(Children(nA)));
    FullnamesAppend(cfg, [n], Flatten(Children(n)));
    if n.CommentNode? {
      AttachKeepsFullnames(cfg, n.comment.replies.items, s);
      assert nA == CommentNode(Attach(n.comment, s));
      FullnamesSingle(cfg, nA);
      FullnamesSingle(cfg, n);
    }
  }

  /** Every comment in a linked tree points back to the submission. */
  predicate AllLinked(vs: seq<Node>, s: Submission)
  {
    forall d :: d in vs && d.CommentNode? ==> d.comment.submission == s
  }

  lemma {:induction false} AttachLinksAll(ns: seq<Node>, s: Submission)
    ensures AllLinked(Flatten(AttachAll(ns, s)), s)
    decreases ForestSize(ns), 2
  {
    if ns != [] {
      var pre, last := ns[..|ns| - 1], ns[|ns| - 1];
      var nsA := AttachAll(ns, s);
      assert nsA[..|nsA| - 1] == AttachAll(pre, s) && nsA[|nsA| - 1] == AttachNode(last, s);
      AttachLinksAll(pre, s);
      AttachNodeLinksAll(last, s);
    }
  }

  lemma {:induction false} AttachNodeLinksAll(n: Node, s: Submission)
    ensures AllLinked(FlattenNode(AttachNode(n, s)), s)
    decreases NSize(n), 1
  {
    if n.CommentNode? {
      AttachLinksAll(n.comment.replies.items, s);
    }
  }

  /** Registering a comment adds exactly the fullnames of it and its
      descendants to the keys of the index. */
  lemma {:induction false} IndexCommentKeys(cfg: Config, m: map<string, Comment>, linked: Comment)
    ensures IndexComment(cfg, m, linked).Keys == m.Keys + Fullnames(cfg, FlattenNode(CommentNode(linked)))
    decreases CSize(linked), 0
  {
    var items := linked.replies.items;
    IndexForestKeys(cfg, m[Fullname(cfg, linked) := linked], items);
    FullnamesAppend(cfg, [CommentNode(linked)], Flatten(items));
    assert Fullnames(cfg, [CommentNode(linked)]) == {Fullname(cfg, linked)};
  }

  lemma {:induction false} IndexForestKeys(cfg: Config, m: map<string, Comment>, ns: seq<Node>)
    ensures IndexForest(cfg, m, ns).Keys == m.Keys + Fullnames(cfg, Flatten(ns))
    decreases ForestSize(ns), 1
  {
    if ns != [] {
      var pre, last := ns[..|ns| - 1], ns[|ns| - 1];
      IndexForestKeys(cfg, m, pre);
      FullnamesAppend(cfg, Flatten(pre), FlattenNode(last));
      if last.CommentNode? {
        IndexCommentKeys(cfg, IndexForest(cfg, m, pre), last.comment);
      } else {
        assert Fullnames(cfg, FlattenNode(last)) == Fullnames(cfg, [last] + Flatten([])) == {};
      }
    }
  }

  /** Every entry of an index sits under its own fullname and links to `s`. */
  predicate IndexedUnder(cfg: Config, m: map<string, Comment>, s: Submission)
  {
    forall k :: k in m ==> Fullname(cfg, m[k]) == k && m[k].submission == s
  }

  /** Registering linked comments keeps every entry of the index under its
      own fullname and linked to the submission. */
  lemma {:induction false} IndexCommentKeeps(cfg: Config, m: map<string, Comment>, linked: Comment, s: Submission)
    requires IndexedUnder(cfg, m, s)
    requires AllLinked(FlattenNode(CommentNode(linked)), s)
    ensures IndexedUnder(cfg, IndexComment(cfg, m, linked), s)
    decreases CSize(linked), 0
  {
    assert CommentNode(linked) in FlattenNode(CommentNode(linked));
    var items := linked.replies.items;
    assert forall d :: d in Flatten(items) ==> d in FlattenNode(CommentNode(linked));
    IndexForestKeeps(cfg, m[Fullname(cfg, linked) := linked], items, s);
  }

  lemma {:induction false} IndexForestKeeps(cfg: Config, m: map<string, Comment>, ns: seq<Node>, s: Submission)
    requires IndexedUnder(cfg, m, s)
    requires AllLinked(Flatten(ns), s)
    ensures IndexedUnder(cfg, IndexForest(cfg, m, ns), s)
    decreases ForestSize(ns), 1
  {
    if ns != [] {
      var pre, last := ns[..|ns| - 1], ns[|ns| - 1];
      assert Flatten(ns) == Flatten(pre) + FlattenNode(last);
      IndexForestKeeps(cfg, m, pre, s);
      if last.CommentNode? {
        IndexCommentKeeps(cfg, IndexForest(cfg, m, pre), last.comment, s);
      }
    }
  }

  /** Linking one more entry of a list appends its linked form. */
  lemma AttachAllSnoc(ns: seq<Node>, i: int, s: Submission)
    requires 0 <= i < |ns|
    ensures AttachAll(ns[..i + 1], s) == AttachAll(ns[..i], s) + [AttachNode(ns[i], s)]
  {
    assert ns[..i + 1][..i] == ns[..i];
  }

  /** Registering one more entry registers a comment with its replies and
      skips a placeholder. */
  lemma IndexForestSnoc(cfg: Config, m: map<string, Comment>, done: seq<Node>, n: Node)
    ensures IndexForest(cfg, m, done + [n]) ==
      if n.CommentNode? then IndexComment(cfg, IndexForest(cfg, m, done), n.comment) else IndexForest(cfg, m, done)
  {
    assert (done + [n])[..|done|] == done;
  }

  /** What registering a linked list does to an index: the keys grow by the
      list's reachable fullnames, and an index valid for `s` stays valid. */
  lemma IndexAttachedForest(cfg: Config, m: map<string, Comment>, ns: seq<Node>, s: Submission)
    ensures IndexForest(cfg, m, AttachAll(ns, s)).Keys == m.Keys + Fullnames(cfg, Flatten(ns))
    ensures IndexedUnder(cfg, m, s) ==> IndexedUnder(cfg, IndexForest(cfg, m, AttachAll(ns, s)), s)
  {
    IndexForestKeys(cfg, m, AttachAll(ns, s));
    AttachKeepsFullnames(cfg, ns, s);
    AttachLinksAll(ns, s);
    if IndexedUnder(cfg, m, s) {
      IndexForestKeeps(cfg, m, AttachAll(ns, s), s);
    }
  }
}
