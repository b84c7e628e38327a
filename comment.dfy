/** The operations of a Comment (praw/models/reddit/comment.py): construction,
    attribute assignment, URL parsing, the fullname-prefix tests, fetching,
    equality, the `submission` property and its setter, `parent()` and
    `refresh()`. Comments are values; an operation that mutates `self` in the
    source returns the comment's new state. */
module Comments {
  import opened Values
  import opened Strings
  import Redditors
  import opened CommentModel

  const MissingCommentMessage := "This comment does not appear to be in the comment tree"
  const ExactlyOneMessage := "Exactly one of 'id', 'url', or '_data' must be provided."
  const NotAStringMessage := "attribute is not a string"
  const NotADictMessage := "comment data is not a dict"

  /** The identity field checked after construction. */
  const StrField := "id"

  // ------------------------------------------------------------ id_from_url

  /** `Comment.id_from_url(url)`, given the path segments of `url`: the last
      segment, provided the first "comments" segment is the fourth from the end. */
  function IdFromUrl(url: string, parts: seq<string>): (r: Result<string>)
    ensures r.Ok? <==> |parts| >= 4 && parts[|parts| - 4] == "comments" && "comments" !in parts[..|parts| - 4]
    ensures r.Ok? ==> r.value == parts[|parts| - 1]
    ensures r.Err? ==> r.error == InvalidURL(url)
  {
    match IndexOf(parts, "comments")
    case None => Err(InvalidURL(url))
    case Some(i) => if |parts| - 4 != i then Err(InvalidURL(url)) else Ok(parts[|parts| - 1])
  }

  /** The permalinks `/comments/<submission>/_/<comment>` and
      `/r/<sub>/comments/<submission>/_/<comment>` give the comment id; the
      shorter or differently shaped paths are refused. */
  lemma IdFromUrlExamples()
    ensures IdFromUrl("u", ["comments", "2gmzqe", "_", "cklhv0f"]) == Ok("cklhv0f")
    ensures IdFromUrl("u", ["r", "redditdev", "comments", "2gmzqe", "_", "cklhv0f"]) == Ok("cklhv0f")
    ensures IdFromUrl("u", []) == Err(InvalidURL("u"))
    ensures IdFromUrl("u", ["1"]) == Err(InvalidURL("u"))
    ensures IdFromUrl("u", ["_"]) == Err(InvalidURL("u"))
    ensures IdFromUrl("u", ["2gmzqe"]) == Err(InvalidURL("u"))
    ensures IdFromUrl("u", ["comments", "_", "2gmzqe"]) == Err(InvalidURL("u"))
    ensures IdFromUrl("u", ["comments", "2gmzqe"]) == Err(InvalidURL("u"))
    ensures IdFromUrl("u", ["r", "redditdev", "comments", "2gmzqe"]) == Err(InvalidURL("u"))
  {
  }

  // ------------------------------------------------- attributes, __setattr__

  /** What `objectify(data=value).children` gives for a `replies` payload; the
      empty string stands for no replies. */
  function ReplyItems(cfg: Config, v: Value): (items: seq<Node>)
    ensures v == Str("") ==> items == []
    ensures v != Str("") ==> items == cfg.replyChildren(v)
  {
    if v == Str("") then [] else cfg.replyChildren(v)
  }

  /** The properties Comment defines besides `replies`: assigning `submission`
      runs its setter, which needs a Submission's `_comments_by_id`, and
      `is_root` and `_kind` have no setter. */
  const PropertyNames: set<string> := {"submission", "is_root", "_kind"}

  /** The error raised when a plain value is assigned to one of those properties. */
  function PropertyError(name: string): (e: Error)
    ensures e.AttributeError?
    ensures name == "submission" ==> e == AttributeError("_comments_by_id")
    ensures name in PropertyNames && name != "submission" ==> e == AttributeError(name)
  {
    if name == "submission" then AttributeError("_comments_by_id") else AttributeError(name)
  }

  /** The stored form of an attribute other than `id` and `replies`:
      `author` goes through `Redditor.from_data`, `subreddit` becomes a
      Subreddit, anything else is kept as given. */
  function Converted(name: string, v: Value): Attr
    requires name == "author" ==> Redditors.FromData(v).Ok?
  {
    if name == "author" then Author(Redditors.FromData(v).value)
    else if name == "subreddit" then SubredditRef(v)
    else Plain(v)
  }

  /** `comment.<name> = v`: `author` goes through `Redditor.from_data`,
      `replies` becomes the raw reply list `_replies`, `subreddit` becomes a
      Subreddit, `id` is the identity field, Comment's own properties refuse a
      plain value; anything else is stored as given. */
  function SetAttr(cfg: Config, c: Comment, name: string, v: Value): (r: Result<Comment>)
    ensures r.Err? <==>
      (name == "author" && Redditors.FromData(v).Err?) || (name == "id" && !v.Str?) || name in PropertyNames
    ensures r.Err? && name == "author" ==> r.error == Redditors.FromData(v).error
    ensures name in PropertyNames ==> r == Err(PropertyError(name))
    ensures r.Ok? ==> r.value.submission == c.submission && r.value.fetched == c.fetched
    ensures r.Ok? && name == "author" ==> r.value.attrs == c.attrs["author" := Author(Redditors.FromData(v).value)]
    ensures r.Ok? && name == "subreddit" ==> r.value.attrs == c.attrs["subreddit" := SubredditRef(v)]
    ensures r.Ok? && name == "replies" ==> r.value == c.(replies := Raw(ReplyItems(cfg, v)))
    ensures r.Ok? && name == "id" ==> r.value == c.(id := v.s)
    ensures r.Ok? && name !in {"author", "subreddit", "replies", "id"} ==> r.value.attrs == c.attrs[name := Plain(v)]
    ensures r.Ok? && name != "replies" && name != "id" ==> r.value.id == c.id && r.value.replies == c.replies
  {
    if name == "replies" then Ok(c.(replies := Raw(ReplyItems(cfg, v))))
    else if name == "id" then
      if v.Str? then Ok(c.(id := v.s)) else Err(TypeError(NotAStringMessage))
    else if name in PropertyNames then Err(PropertyError(name))
    else if name == "author" && Redditors.FromData(v).Err? then Err(Redditors.FromData(v).error)
    else Ok(c.(attrs := c.attrs[name := Converted(name, v)]))
  }

  /** Assigning the same value twice is the same as assigning it once. */
  lemma SetAttrIdempotent(cfg: Config, c: Comment, name: string, v: Value)
    requires SetAttr(cfg, c, name, v).Ok?
    ensures SetAttr(cfg, SetAttr(cfg, c, name, v).value, name, v) == SetAttr(cfg, c, name, v)
  {
    var once := SetAttr(cfg, c, name, v).value;
    if name != "replies" && name != "id" {
      assert once.attrs[name := Converted(name, v)] == once.attrs;
    }
  }

  /** A comment holds a payload once assigning any of its keys again changes nothing. */
  predicate Loaded(cfg: Config, c: Comment, data: map<string, Value>)
  {
    forall k :: k in data ==> SetAttr(cfg, c, k, data[k]) == Ok(c)
  }

  /** The state of a comment built from a payload: every key assigned through
      `SetAttr`, then the identity field checked. */
  function LoadData(cfg: Config, data: map<string, Value>): (r: Result<Comment>)
    ensures r.Ok? <==>
      "id" in data && data["id"].Str? && !("author" in data && Redditors.FromData(data["author"]).Err?) &&
      data.Keys !! PropertyNames
    ensures "author" in data && Redditors.FromData(data["author"]).Err? ==> r == Err(Redditors.FromData(data["author"]).error)
    ensures !("author" in data && Redditors.FromData(data["author"]).Err?) && !(data.Keys !! PropertyNames) ==>
      exists k :: k in data && k in PropertyNames && r == Err(PropertyError(k))
    ensures !("author" in data && Redditors.FromData(data["author"]).Err?) && data.Keys !! PropertyNames && "id" !in data ==>
      r == Err(ValueError(StrField))
    ensures r.Ok? ==> r.value.id == data["id"].s && r.value.submission == null && r.value.fetched
    ensures r.Ok? ==> r.value.attrs.Keys == data.Keys - {"id", "replies"} && r.value.replies.Raw?
    ensures r.Ok? && "replies" !in data ==> r.value.replies == Raw([])
    ensures r.Ok? ==> Loaded(cfg, r.value, data)
  {
    if "author" in data && Redditors.FromData(data["author"]).Err? then Err(Redditors.FromData(data["author"]).error)
    else if "submission" in data then Err(PropertyError("submission"))
    else if "is_root" in data then Err(PropertyError("is_root"))
    else if "_kind" in data then Err(PropertyError("_kind"))
    else if "id" in data && !data["id"].Str? then Err(TypeError(NotAStringMessage))
    else if "id" !in data then Err(ValueError(StrField))
    else
      var attrs := map k | k in data && k != "id" && k != "replies" :: Converted(k, data[k]);
      var replies := if "replies" in data then ReplyItems(cfg, data["replies"]) else [];
      var c := Comment(data["id"].s, attrs, Raw(replies), null, true);
      assert forall k :: k in data ==> SetAttr(cfg, c, k, data[k]) == Ok(c) by {
        forall k | k in data ensures SetAttr(cfg, c, k, data[k]) == Ok(c) {
          if k != "id" && k != "replies" {
            assert c.attrs[k] == Converted(k, data[k]);
            assert c.attrs[k := c.attrs[k]] == c.attrs;
          }
        }
      }
      Ok(c)
  }

  // -------------------------------------------------------------- __init__

  /** `Comment(reddit, id=..., url=..., _data=...)`: exactly one of the three
      must be given (not None); a truthy id is taken as is, a truthy url is
      parsed, and otherwise the payload is loaded and the comment counts as
      fetched. An empty id or url ends with no identity field. */
  function New(cfg: Config, id: Option<string>, url: Option<string>, data: Option<map<string, Value>>): (r: Result<Comment>)
    ensures CountGiven(id.Some?, url.Some?, data.Some?) != 1 ==> r == Err(TypeError(ExactlyOneMessage))
    ensures CountGiven(id.Some?, url.Some?, data.Some?) == 1 && id.Some? ==>
      r == if id.value != "" then Ok(Comment(id.value, map[], Raw([]), null, false)) else Err(ValueError(StrField))
    ensures CountGiven(id.Some?, url.Some?, data.Some?) == 1 && url.Some? && url.value == "" ==> r == Err(ValueError(StrField))
    ensures CountGiven(id.Some?, url.Some?, data.Some?) == 1 && url.Some? && url.value != "" ==>
      (r.Ok? <==> cfg.urlParts(url.value).Ok? && IdFromUrl(url.value, cfg.urlParts(url.value).value).Ok?) &&
      (r.Ok? ==> r.value == Comment(IdFromUrl(url.value, cfg.urlParts(url.value).value).value, map[], Raw([]), null, false))
    ensures CountGiven(id.Some?, url.Some?, data.Some?) == 1 && url.Some? && url.value != "" && cfg.urlParts(url.value).Err? ==>
      r == Err(cfg.urlParts(url.value).error)
    ensures CountGiven(id.Some?, url.Some?, data.Some?) == 1 && url.Some? && url.value != "" && cfg.urlParts(url.value).Ok? && r.Err? ==>
      r.error == InvalidURL(url.value)
    ensures CountGiven(id.Some?, url.Some?, data.Some?) == 1 && data.Some? ==> r == LoadData(cfg, data.value)
    ensures r.Ok? ==> (r.value.fetched <==> data.Some?) && r.value.submission == null
  {
    if CountGiven(id.Some?, url.Some?, data.Some?) != 1 then Err(TypeError(ExactlyOneMessage))
    else if id.Some? && id.value != "" then Ok(Comment(id.value, map[], Raw([]), null, false))
    else if url.Some? && url.value != "" then
      var parts :- cfg.urlParts(url.value);
      var i :- IdFromUrl(url.value, parts);
      Ok(Comment(i, map[], Raw([]), null, false))
    else if data.None? then Err(ValueError(StrField))
    else LoadData(cfg, data.value)
  }

  /** `Comment(reddit, _data=...)` for a decoded payload value. */
  function FromPayload(cfg: Config, v: Value): (r: Result<Comment>)
    ensures v.Null? ==> r == Err(TypeError(ExactlyOneMessage))
    ensures v.Dict? ==> r == New(cfg, None, None, Some(v.fields))
    ensures r.Ok? ==> v.Dict? && Loaded(cfg, r.value, v.fields)
    ensures r.Ok? ==> r.value.attrs.Keys == v.fields.Keys - {"id", "replies"}
  {
    match v
    case Null => New(cfg, None, None, None)
    case Dict(m) => New(cfg, None, None, Some(m))
    case _ => Err(TypeError(NotADictMessage))
  }

  // ------------------------------------------------------ reading attributes

  /** Reading a string attribute; a missing one is an AttributeError. */
  function StrAttr(c: Comment, name: string): (r: Result<string>)
    ensures name !in c.attrs ==> r == Err(AttributeError(name))
    ensures r.Ok? <==> name in c.attrs && c.attrs[name].Plain? && c.attrs[name].v.Str?
    ensures r.Ok? ==> c.attrs[name] == Plain(Str(r.value))
  {
    if name !in c.attrs then Err(AttributeError(name))
    else if c.attrs[name].Plain? && c.attrs[name].v.Str? then Ok(c.attrs[name].v.s)
    else Err(TypeError(NotAStringMessage))
  }

  /** `comment.is_root`: the text of `parent_id` before its first underscore is
      the submission kind. */
  function IsRoot(cfg: Config, c: Comment): (r: Result<bool>)
    ensures r.Ok? <==> StrAttr(c, "parent_id").Ok?
    ensures r.Err? ==> r.error == StrAttr(c, "parent_id").error
  {
    var p :- StrAttr(c, "parent_id");
    Ok(SplitMax(p, '_', 1)[0] == cfg.submissionKind)
  }

  /** A comment is top-level exactly when its `parent_id` is the submission
      kind alone or starts with the submission kind and an underscore; with an
      underscore in the kind, no comment is. */
  lemma IsRootIff(cfg: Config, c: Comment)
    requires StrAttr(c, "parent_id").Ok?
    ensures var p := StrAttr(c, "parent_id").value;
      && ('_' !in cfg.submissionKind ==>
            (IsRoot(cfg, c) == Ok(true) <==> p == cfg.submissionKind || cfg.submissionKind + "_" <= p))
      && ('_' in cfg.submissionKind ==> IsRoot(cfg, c) == Ok(false))
  {
    var p := StrAttr(c, "parent_id").value;
    SplitOnce(p, '_');
    var parts := SplitMax(p, '_', 1);
    var kind := cfg.submissionKind;
    if '_' !in kind && kind + "_" <= p {
      assert p == kind + "_" + p[|kind| + 1..];
      FullnameSplit(kind, p[|kind| + 1..]);
    }
    if '_' !in kind && parts[0] == kind && |parts| == 2 {
      assert kind + "_" <= p;
    }
  }

  /** A parent that is the submission makes the comment top-level; a parent
      that is a comment does not. */
  lemma IsRootOfFullnames(cfg: Config, c: Comment, parentId: string, s: Submission)
    requires KindsWellFormed(cfg)
    requires "parent_id" in c.attrs && c.attrs["parent_id"] == Plain(Str(parentId))
    ensures parentId == SubmissionFullname(cfg, s) ==> IsRoot(cfg, c) == Ok(true)
    ensures (exists k: Comment :: parentId == Fullname(cfg, k)) ==> IsRoot(cfg, c) == Ok(false)
  {
    if exists k: Comment :: parentId == Fullname(cfg, k) {
      var k: Comment :| parentId == Fullname(cfg, k);
      FullnameSplit(cfg.commentKind, k.id);
    }
    if parentId == SubmissionFullname(cfg, s) {
      FullnameSplit(cfg.submissionKind, s.id);
    }
  }

  /** `_extract_submission_id`: from `context` (element 1 of its `rsplit("/", 4)`)
      when the comment has one, else from `link_id` (the text after its first
      underscore). */
  function ExtractSubmissionId(c: Comment): (r: Result<string>)
    ensures "context" in c.attrs && StrAttr(c, "context").Err? ==> r == Err(StrAttr(c, "context").error)
    ensures "context" in c.attrs && StrAttr(c, "context").Ok? ==> (r.Ok? <==> '/' in StrAttr(c, "context").value)
    ensures "context" !in c.attrs && StrAttr(c, "link_id").Err? ==> r == Err(StrAttr(c, "link_id").error)
    ensures "context" !in c.attrs && StrAttr(c, "link_id").Ok? ==> (r.Ok? <==> '_' in StrAttr(c, "link_id").value)
    ensures r.Err? && StrAttr(c, if "context" in c.attrs then "context" else "link_id").Ok? ==> r == Err(IndexError)
  {
    if "context" in c.attrs then
      var ctx :- StrAttr(c, "context");
      var parts := RSplitMax(ctx, '/', 4);
      RSplitFourSecond(ctx, '/');
      SplitCount(ctx, '/');
      if |parts| >= 2 then Ok(parts[1]) else Err(IndexError)
    else
      var link :- StrAttr(c, "link_id");
      var parts := SplitMax(link, '_', 1);
      SplitOnce(link, '_');
      if |parts| >= 2 then Ok(parts[1]) else Err(IndexError)
  }

  /** A `link_id` that is the submission's fullname yields the submission id. */
  lemma ExtractFromLinkId(cfg: Config, c: Comment, s: Submission)
    requires '_' !in cfg.submissionKind
    requires "context" !in c.attrs
    requires "link_id" in c.attrs && c.attrs["link_id"] == Plain(Str(SubmissionFullname(cfg, s)))
    ensures ExtractSubmissionId(c) == Ok(s.id)
  {
    FullnameSplit(cfg.submissionKind, s.id);
  }

  /** A context permalink `<prefix>/<submission>/<slug>/<comment>/<query>`
      yields the submission id, whatever the prefix. */
  lemma ExtractFromContext(c: Comment, prefix: string, sub: string, slug: string, comment: string, query: string)
    requires '/' !in sub && '/' !in slug && '/' !in comment && '/' !in query
    requires "context" in c.attrs
    requires c.attrs["context"] == Plain(Str(prefix + "/" + sub + "/" + slug + "/" + comment + "/" + query))
    ensures ExtractSubmissionId(c) == Ok(sub)
  {
    var a := prefix + "/" + sub;
    var b := a + "/" + slug;
    var d := b + "/" + comment;
    var ctx := d + "/" + query;
    SplitAtLast(prefix, '/', sub);
    SplitAtLast(a, '/', slug);
    SplitAtLast(b, '/', comment);
    SplitAtLast(d, '/', query);
    var parts := Split(ctx, '/');
    assert parts == Split(prefix, '/') + [sub, slug, comment, query];
    RSplitFourSecond(ctx, '/');
  }

  /** An inbox context permalink gives its submission id. */
  lemma ExtractFromContextExample(c: Comment)
    requires "context" in c.attrs
    requires c.attrs["context"] == Plain(Str("/r/redditdev/comments/2gmzqe/_/cklhv0f/?context=3"))
    ensures ExtractSubmissionId(c) == Ok("2gmzqe")
  {
    assert "/r/redditdev/comments/2gmzqe/_/cklhv0f/?context=3" == "/r/redditdev/comments" + "/" + "2gmzqe" + "/" + "_" + "/" + "cklhv0f" + "/" + "?context=3";
    ExtractFromContext(c, "/r/redditdev/comments", "2gmzqe", "_", "cklhv0f", "?context=3");
  }

  // ------------------------------------------------------- _fetch, _fetch_info

  /** The message of the ClientException raised when a fetch returns nothing. */
  function NoDataMessage(cfg: Config, c: Comment): string
  {
    "No data returned for comment " + Fullname(cfg, c)
  }

  /** `response["data"]["children"]`. */
  function FetchedChildren(response: Value): Result<Value>
  {
    var data :- Subscript(response, "data");
    Subscript(data, "children")
  }

  /** `response["data"]["children"][0]["data"]`. */
  function FetchedPayload(response: Value): Result<Value>
  {
    var children :- FetchedChildren(response);
    var first :- ListIndex(children, 0);
    Subscript(first, "data")
  }

  /** `_fetch`, given the decoded response: build a comment from the first
      child's `data` and merge its whole state into this one. The merge also
      copies the new comment's empty `_submission`. */
  function Fetch(cfg: Config, c: Comment, response: Value): (r: Result<Comment>)
    ensures FetchedChildren(response).Err? ==> r == Err(FetchedChildren(response).error)
    ensures FetchedChildren(response).Ok? && !Truthy(FetchedChildren(response).value) ==>
      r == Err(ClientException(NoDataMessage(cfg, c)))
    ensures FetchedChildren(response).Ok? && Truthy(FetchedChildren(response).value) && FetchedPayload(response).Err? ==>
      r == Err(FetchedPayload(response).error)
    ensures FetchedChildren(response).Ok? && Truthy(FetchedChildren(response).value) && FetchedPayload(response).Ok? ==>
      (r.Ok? <==> FromPayload(cfg, FetchedPayload(response).value).Ok?) &&
      (r.Err? ==> r == Err(FromPayload(cfg, FetchedPayload(response).value).error))
    ensures r.Ok? ==> FetchedPayload(response).Ok? && FetchedPayload(response).value.Dict?
    ensures r.Ok? ==>
      var payload := FetchedPayload(response).value.fields;
      && Loaded(cfg, r.value, payload)
      && r.value.attrs.Keys == c.attrs.Keys + (payload.Keys - {"id", "replies"})
      && (forall k :: k in c.attrs && k !in payload ==> r.value.attrs[k] == c.attrs[k])
      && ("replies" !in payload ==> r.value.replies == Raw([]))
      && r.value.fetched && r.value.submission == null
  {
    var children :- FetchedChildren(response);
    if !Truthy(children) then Err(ClientException(NoDataMessage(cfg, c)))
    else
      var payload :- FetchedPayload(response);
      var other :- FromPayload(cfg, payload);
      var merged := c.(id := other.id, attrs := c.attrs + other.attrs, replies := other.replies,
                       submission := null, fetched := true);
      assert Loaded(cfg, merged, payload.fields) by {
        forall k | k in payload.fields ensures SetAttr(cfg, merged, k, payload.fields[k]) == Ok(merged) {
          var v := payload.fields[k];
          assert SetAttr(cfg, other, k, v) == Ok(other);
          if k != "replies" && k != "id" {
            assert k in other.attrs;
            assert merged.attrs[k] == other.attrs[k];
            if k == "author" {
              assert other.attrs[k] == Author(Redditors.FromData(v).value);
            } else if k == "subreddit" {
              assert other.attrs[k] == SubredditRef(v);
            } else {
              assert other.attrs[k] == Plain(v);
            }
            assert merged.attrs[k := merged.attrs[k]] == merged.attrs;
          }
        }
      }
      Ok(merged)
  }

  /** `_fetch_info`: the `info` endpoint, no path fields, the fullname as `id`. */
  function FetchInfo(cfg: Config, c: Comment): (req: InfoRequest)
    ensures req.pathName == "info" && req.pathFields == map[] && req.params.Some?
    ensures req.params.value.Keys == {"id"} && req.params.value["id"].Str?
  {
    InfoRequest("info", map[], Some(map["id" := Str(Fullname(cfg, c))]))
  }

  /** The `id` sent by `_fetch_info` splits back into the comment kind and the id. */
  lemma FetchInfoRoundTrip(cfg: Config, c: Comment)
    requires '_' !in cfg.commentKind
    ensures SplitMax(FetchInfo(cfg, c).params.value["id"].s, '_', 1) == [cfg.commentKind, c.id]
  {
    FullnameSplit(cfg.commentKind, c.id);
  }

  // --------------------------------------------------------------- equality

  /** Two comments are equal when their ids agree ignoring case. */
  predicate SameComment(a: Comment, b: Comment)
  {
    SameIgnoringCase(a.id, b.id)
  }

  /** A comment equals a string that is its id ignoring case (`str(comment)` is the id). */
  predicate EqualsString(a: Comment, s: string)
  {
    SameIgnoringCase(a.id, s)
  }

  /** Comment equality is an equivalence, and agrees with comparing either
      comment to the other's id. */
  lemma SameCommentIsEquivalence(a: Comment, b: Comment, d: Comment)
    ensures SameComment(a, a)
    ensures SameComment(a, b) ==> SameComment(b, a)
    ensures SameComment(a, b) && SameComment(b, d) ==> SameComment(a, d)
    ensures SameComment(a, b) <==> EqualsString(a, b.id)
  {
  }

  /** Comments loaded from `{"id": "dummy1"}` and `{"id": "Dummy1"}` are equal
      and both equal "dummy1"; neither equals the one loaded from `{"id": "dummy3"}`. */
  lemma EqualityExamples(cfg: Config)
    ensures New(cfg, None, None, Some(map["id" := Str("dummy1"), "n" := Int(1)])).Ok?
    ensures New(cfg, None, None, Some(map["id" := Str("Dummy1"), "n" := Int(2)])).Ok?
    ensures New(cfg, None, None, Some(map["id" := Str("dummy3"), "n" := Int(2)])).Ok?
    ensures var c1 := New(cfg, None, None, Some(map["id" := Str("dummy1"), "n" := Int(1)])).value;
            var c2 := New(cfg, None, None, Some(map["id" := Str("Dummy1"), "n" := Int(2)])).value;
            var c3 := New(cfg, None, None, Some(map["id" := Str("dummy3"), "n" := Int(2)])).value;
      && SameComment(c1, c2) && !SameComment(c2, c3) && !SameComment(c1, c3)
      && EqualsString(c1, "dummy1") && EqualsString(c2, "dummy1")
      && c1.fetched
  {
    var c1 := New(cfg, None, None, Some(map["id" := Str("dummy1"), "n" := Int(1)])).value;
    var c2 := New(cfg, None, None, Some(map["id" := Str("Dummy1"), "n" := Int(2)])).value;
    var c3 := New(cfg, None, None, Some(map["id" := Str("dummy3"), "n" := Int(2)])).value;
    assert c1.id == "dummy1" && c2.id == "Dummy1" && c3.id == "dummy3";
    assert Lower("Dummy1") == "dummy1" by {
      assert LowerChar('D') == 'd';
    }
    assert Lower("dummy1") == "dummy1";
    assert Lower("dummy3")[5] == '3';
  }

  // ------------------------------------------- the `submission` property

  /** The `submission` getter: the linked submission, or a new Submission for
      the extracted id, remembered in `_submission` (without registering). */
  method GetSubmission(c: Comment) returns (c': Comment, r: Result<Submission>)
    ensures c.submission != null ==> c' == c && r == Ok(c.submission)
    ensures c.submission == null ==> (r.Ok? <==> ExtractSubmissionId(c).Ok?)
    ensures c.submission == null && r.Err? ==> c' == c && r.error == ExtractSubmissionId(c).error
    ensures c.submission == null && r.Ok? ==>
      fresh(r.value) && r.value.id == ExtractSubmissionId(c).value && r.value.commentsById == map[] &&
      c' == c.(submission := r.value)
  {
    if c.submission != null {
      return c, Ok(c.submission);
    }
    var id := ExtractSubmissionId(c);
    if id.Err? {
      return c, Err(id.error);
    }
    var s := new Submission(id.value);
    return c.(submission := s), Ok(s);
  }

  /** The `replies` property: the first read turns the raw list into a
      CommentForest of the comment's submission; later reads return it as is. */
  method Replies(c: Comment) returns (c': Comment, r: Result<seq<Node>>)
    ensures c.replies.Forest? ==> c' == c && r == Ok(c.replies.items)
    ensures c.replies.Raw? && c.submission != null ==>
      r == Ok(c.replies.items) && c' == c.(replies := Forest(c.submission, c.replies.items))
    ensures c.replies.Raw? && c.submission == null ==> (r.Ok? <==> ExtractSubmissionId(c).Ok?)
    ensures c.replies.Raw? && c.submission == null && r.Err? ==> c' == c
    ensures c.replies.Raw? && c.submission == null && r.Ok? ==>
      r.value == c.replies.items && c'.submission != null && fresh(c'.submission) &&
      c'.submission.id == ExtractSubmissionId(c).value && c'.submission.commentsById == map[] &&
      c' == c.(submission := c'.submission, replies := Forest(c'.submission, c.replies.items))
    ensures r.Ok? ==> c'.replies.Forest? && c'.replies.items == c.replies.items
  {
    if c.replies.Forest? {
      return c, Ok(c.replies.items);
    }
    var c2, s := GetSubmission(c);
    if s.Err? {
      return c2, Err(s.error);
    }
    c' := c2.(replies := Forest(s.value, c.replies.items));
    r := Ok(c.replies.items);
  }

  /** `comment.submission = s`: store the comment under its fullname, link it,
      then assign `s` to every reply in order. The index holds the state each
      comment has once all assignments are done. */
  method SetSubmission(cfg: Config, c: Comment, s: Submission) returns (linked: Comment)
    modifies s
    ensures linked == Attach(c, s)
    ensures s.commentsById == IndexComment(cfg, old(s.commentsById), linked)
    ensures s.commentsById.Keys == old(s.commentsById).Keys + Fullnames(cfg, FlattenNode(CommentNode(c)))
    ensures old(s.IndexValid(cfg)) ==> s.IndexValid(cfg)
    decreases CSize(c), 0
  {
    linked := Attach(c, s);
    s.commentsById := s.commentsById[Fullname(cfg, c) := linked];
    LinkAll(cfg, c.replies.items, s);
    ghost var m0 := old(s.commentsById);
    assert linked.replies.items == AttachAll(c.replies.items, s);
    IndexCommentKeys(cfg, m0, linked);
    AttachNodeKeepsFullnames(cfg, CommentNode(c), s);
    AttachNodeLinksAll(CommentNode(c), s);
    if old(s.IndexValid(cfg)) {
      IndexCommentKeeps(cfg, m0, linked, s);
    }
  }

  /** `for reply in replies: reply.submission = s`; a MoreComments entry keeps
      nothing of the assignment. */
  method LinkAll(cfg: Config, ns: seq<Node>, s: Submission)
    modifies s
    ensures s.commentsById == IndexForest(cfg, old(s.commentsById), AttachAll(ns, s))
    ensures s.commentsById.Keys == old(s.commentsById).Keys + Fullnames(cfg, Flatten(ns))
    ensures old(s.IndexValid(cfg)) ==> s.IndexValid(cfg)
    decreases ForestSize(ns), 1
  {
    ghost var m0 := s.commentsById;
    var i := 0;
    while i < |ns|
      invariant 0 <= i <= |ns|
      invariant s.commentsById == IndexForest(cfg, m0, AttachAll(ns[..i], s))
    {
      AttachAllSnoc(ns, i, s);
      IndexForestSnoc(cfg, m0, AttachAll(ns[..i], s), AttachNode(ns[i], s));
      if ns[i].CommentNode? {
        ForestSizeBound(ns, i);
        var l := SetSubmission(cfg, ns[i].comment, s);
      }
      i := i + 1;
    }
    assert ns[..|ns|] == ns;
    IndexAttachedForest(cfg, m0, ns, s);
  }

  // ----------------------------------------------------------------- parent

  /** What `parent()` returns. */
  datatype ParentRef = OfSubmission(submission: Submission) | OfComment(comment: Comment)

  /** The id of a lazily built parent: `parent_id` after its first underscore. */
  function LazyParentId(parentId: string): (r: Result<string>)
    ensures r.Ok? <==> '_' in parentId
    ensures r.Err? ==> r.error == IndexError
    ensures r.Ok? ==> var kind := SplitMax(parentId, '_', 1)[0]; '_' !in kind && parentId == kind + "_" + r.value
  {
    SplitOnce(parentId, '_');
    var parts := SplitMax(parentId, '_', 1);
    if |parts| >= 2 then Ok(parts[1]) else Err(IndexError)
  }

  /** The lazy parent of a comment whose parent is the comment `k` has `k`'s id. */
  lemma LazyParentRoundTrip(cfg: Config, k: Comment)
    requires '_' !in cfg.commentKind
    ensures LazyParentId(Fullname(cfg, k)) == Ok(k.id)
  {
    FullnameSplit(cfg.commentKind, k.id);
  }

  /** `comment.parent()`: the submission when `parent_id` is its fullname, the
      indexed comment when `parent_id` is a key of the index, else a new
      unfetched comment for the id after the underscore, linked to the same
      submission. `parent_id` is read before `submission`, which may create
      and remember the submission; a `parent_id` that is not a string fails
      only after that. */
  method Parent(cfg: Config, c: Comment) returns (c': Comment, r: Result<ParentRef>)
    ensures "parent_id" !in c.attrs ==> c' == c && r == Err(AttributeError("parent_id"))
    ensures c.submission != null ==> c' == c
    ensures "parent_id" in c.attrs && c.submission == null && ExtractSubmissionId(c).Err? ==>
      c' == c && r == Err(ExtractSubmissionId(c).error)
    ensures "parent_id" in c.attrs && c.submission == null && ExtractSubmissionId(c).Ok? ==>
      c'.submission != null && fresh(c'.submission) && c'.submission.id == ExtractSubmissionId(c).value &&
      c'.submission.commentsById == map[] && c' == c.(submission := c'.submission)
    ensures "parent_id" in c.attrs && StrAttr(c, "parent_id").Err? && c'.submission != null ==>
      r == Err(StrAttr(c, "parent_id").error)
    ensures r.Ok? ==> StrAttr(c, "parent_id").Ok? && c'.submission != null
    ensures r.Ok? ==> var p := StrAttr(c, "parent_id").value; var s := c'.submission;
      && (p == SubmissionFullname(cfg, s) ==> r.value == OfSubmission(s))
      && (p != SubmissionFullname(cfg, s) && p in s.commentsById ==> r.value == OfComment(s.commentsById[p]))
      && (p != SubmissionFullname(cfg, s) && p !in s.commentsById ==>
            LazyParentId(p).Ok? && LazyParentId(p).value != "" &&
            r.value == OfComment(Comment(LazyParentId(p).value, map[], Raw([]), s, false)))
    ensures r.Err? && StrAttr(c, "parent_id").Ok? && c'.submission != null ==>
      var p := StrAttr(c, "parent_id").value; var s := c'.submission;
      && p != SubmissionFullname(cfg, s) && p !in s.commentsById
      && (LazyParentId(p).Ok? ==> LazyParentId(p).value == "")
      && r.error == (if LazyParentId(p).Err? then IndexError else ValueError(StrField))
  {
    if "parent_id" !in c.attrs {
      return c, Err(AttributeError("parent_id"));
    }
    var sr;
    c', sr := GetSubmission(c);
    if sr.Err? {
      return c', Err(sr.error);
    }
    var s := sr.value;
    var p := StrAttr(c, "parent_id");
    if p.Err? {
      return c', Err(p.error);
    }
    if p.value == SubmissionFullname(cfg, s) {
      return c', Ok(OfSubmission(s));
    }
    if p.value in s.commentsById {
      return c', Ok(OfComment(s.commentsById[p.value]));
    }
    var id := LazyParentId(p.value);
    if id.Err? {
      return c', Err(id.error);
    }
    var parent := New(cfg, Some(id.value), None, None);
    if parent.Err? {
      return c', Err(parent.error);
    }
    r := Ok(OfComment(parent.value.(submission := s)));
  }

  // ---------------------------------------------------------------- refresh

  /** The loop of `refresh`: pop the top of a stack started as a copy of the
      returned list, push a comment's replies, stop at the target id or when
      the stack is empty. */
  method LifoSearch(list: seq<Node>, target: string) returns (found: Option<Node>)
    ensures found == StopFrom(None, Visit(list), target)
    ensures found.None? <==> list == []
    ensures found.Some? ==> found.value in Flatten(list)
    ensures found.Some? && found.value.Id() == target <==> Reachable(list, target)
  {
    var queue := list;
    found := None;
    while queue != [] && (found.None? || found.value.Id() != target)
      invariant StopFrom(found, Visit(queue), target) == StopFrom(None, Visit(list), target)
      decreases ForestSize(queue)
    {
      var n := queue[|queue| - 1];
      queue := queue[..|queue| - 1];
      found := Some(n);
      ForestSizeAppend(queue, Children(n));
      queue := queue + Children(n);
    }
    SearchFindsReachable(list, target);
  }

  /** `self.__dict__.update(found.__dict__)`, keeping the comment's own
      submission when it has one. */
  function Merge(c: Comment, found: Comment): (r: Comment)
    ensures r.id == found.id && r.replies == found.replies && r.fetched == found.fetched
    ensures r.attrs.Keys == c.attrs.Keys + found.attrs.Keys
    ensures forall k :: k in found.attrs ==> r.attrs[k] == found.attrs[k]
    ensures forall k :: k in c.attrs && k !in found.attrs ==> r.attrs[k] == c.attrs[k]
    ensures c.submission != null ==> r.submission == c.submission
    ensures c.submission == null ==> r.submission == found.submission
  {
    c.(id := found.id, attrs := c.attrs + found.attrs, replies := found.replies, fetched := found.fetched,
       submission := if c.submission != null then c.submission else found.submission)
  }

  /** The stack search ends on a comment (not a placeholder) with the id. */
  predicate SearchFindsComment(list: seq<Node>, id: string)
  {
    var f := StopFrom(None, Visit(list), id);
    f.Some? && f.value.Id() == id && f.value.CommentNode?
  }

  /** The comment the stack search ends on. */
  function FoundComment(list: seq<Node>, id: string): (k: Comment)
    requires SearchFindsComment(list, id)
    ensures k.id == id && CommentNode(k) in Flatten(list)
  {
    SearchFindsReachable(list, id);
    StopFrom(None, Visit(list), id).value.comment
  }

  /** Whether the `submission` getter run by `refresh` before its request fails. */
  predicate RequestPathFails(c: Comment)
  {
    "context" !in c.attrs && c.submission == null && ExtractSubmissionId(c).Err?
  }

  /** Whether the `submission` getter run by `refresh` after the merge fails:
      only when neither the comment nor the found one is linked and the
      merged attributes give no submission id. */
  predicate LinkPathFails(c: Comment, list: seq<Node>)
    requires SearchFindsComment(list, c.id)
  {
    "context" in c.attrs && c.submission == null && FoundComment(list, c.id).submission == null &&
    ExtractSubmissionId(Merge(c, FoundComment(list, c.id))).Err?
  }

  /** The one existing submission `refresh` may write to: the comment's own,
      else the one the found comment is linked to, when the request path left
      the comment unlinked. Otherwise it links to a new submission. */
  ghost function RefreshTarget(c: Comment, list: seq<Node>): set<Submission>
  {
    if c.submission != null then {c.submission}
    else if "context" in c.attrs && SearchFindsComment(list, c.id) && FoundComment(list, c.id).submission != null then
      {FoundComment(list, c.id).submission}
    else {}
  }

  /** `comment.refresh()`, given the children of the returned comment listing:
      find the node with the comment's id by the stack search, merge it into
      the comment, then assign the comment's submission to every returned
      top-level entry. */
  method Refresh(cfg: Config, c: Comment, list: seq<Node>) returns (after: Comment, r: Result<()>)
    modifies RefreshTarget(c, list)
    ensures r.Ok? <==> !RequestPathFails(c) && SearchFindsComment(list, c.id) && !LinkPathFails(c, list)
    ensures RequestPathFails(c) ==> after == c && r == Err(ExtractSubmissionId(c).error)
    ensures !RequestPathFails(c) && !SearchFindsComment(list, c.id) ==>
      r == Err(ClientException(MissingCommentMessage)) &&
      if "context" in c.attrs || c.submission != null then after == c
      else after == c.(submission := after.submission) && after.submission != null && fresh(after.submission) &&
           after.submission.id == ExtractSubmissionId(c).value && after.submission.commentsById == map[]
    ensures !RequestPathFails(c) && !Reachable(list, c.id) ==> r == Err(ClientException(MissingCommentMessage))
    ensures SearchFindsComment(list, c.id) && LinkPathFails(c, list) ==>
      after == Merge(c, FoundComment(list, c.id)) && r == Err(ExtractSubmissionId(Merge(c, FoundComment(list, c.id))).error)
    ensures r.Err? ==> unchanged(RefreshTarget(c, list))
    ensures r.Ok? ==> Reachable(list, c.id)
    ensures r.Ok? ==> (exists i :: 0 <= i < |Visit(list)| && Visit(list)[i].Id() == c.id) && StopFrom(None, Visit(list), c.id).Some?
    ensures r.Ok? ==>
      var f := StopFrom(None, Visit(list), c.id).value;
      && f.CommentNode? && f.comment.id == c.id && f == Visit(list)[FirstWithId(Visit(list), c.id)]
      && after.id == c.id
      && after.attrs == c.attrs + f.comment.attrs
      && after.fetched == f.comment.fetched
      && after.submission != null
      && after.replies == f.comment.replies.(items := AttachAll(f.comment.replies.items, after.submission))
    ensures r.Ok? && c.submission != null ==> after.submission == c.submission
    ensures r.Ok? && c.submission != null ==>
      c.submission.commentsById == IndexForest(cfg, old(c.submission.commentsById), AttachAll(list, c.submission)) &&
      (old(c.submission.IndexValid(cfg)) ==> c.submission.IndexValid(cfg))
    ensures r.Ok? && c.submission == null && RefreshTarget(c, list) != {} ==>
      var t := FoundComment(list, c.id).submission;
      && after.submission == t
      && t.commentsById == IndexForest(cfg, old(t.commentsById), AttachAll(list, t))
      && (old(t.IndexValid(cfg)) ==> t.IndexValid(cfg))
    ensures r.Ok? && RefreshTarget(c, list) == {} ==>
      fresh(after.submission) && after.submission.IndexValid(cfg) &&
      after.submission.commentsById == IndexForest(cfg, map[], AttachAll(list, after.submission))
    ensures r.Ok? && RefreshTarget(c, list) == {} ==>
      after.submission.id == (if "context" in c.attrs then ExtractSubmissionId(Merge(c, FoundComment(list, c.id))).value
                              else ExtractSubmissionId(c).value)
    ensures r.Ok? ==> Fullnames(cfg, Flatten(list)) <= after.submission.commentsById.Keys
  {
    after := c;
    if "context" !in c.attrs {
      var s0;
      after, s0 := GetSubmission(c);
      if s0.Err? {
        return after, Err(s0.error);
      }
    }
    if list == [] {
      return after, Err(ClientException(MissingCommentMessage));
    }
    var found := LifoSearch(list, c.id);
    if found.None? || found.value.Id() != c.id || found.value.MoreComments? {
      return after, Err(ClientException(MissingCommentMessage));
    }
    var k := found.value.comment;
    assert k == FoundComment(list, c.id);
    FirstWithIdIsFound(list, c.id);
    after, r := MergeAndLink(cfg, after, k, list);
  }

  /** The end of `refresh` once the search found comment `k`: merge it into
      the comment, read `submission`, and assign that submission to every
      returned top-level entry. */
  method MergeAndLink(cfg: Config, c: Comment, k: Comment, list: seq<Node>) returns (after: Comment, r: Result<()>)
    modifies if c.submission != null then {c.submission} else if k.submission != null then {k.submission} else {}
    ensures r.Ok? <==> c.submission != null || k.submission != null || ExtractSubmissionId(Merge(c, k)).Ok?
    ensures r.Err? ==> after == Merge(c, k) && r == Err(ExtractSubmissionId(Merge(c, k)).error)
    ensures r.Err? ==> unchanged(if c.submission != null then {c.submission} else if k.submission != null then {k.submission} else {})
    ensures r.Ok? ==> after.submission != null
    ensures r.Ok? ==>
      after == Merge(c, k).(submission := after.submission, replies := k.replies.(items := AttachAll(k.replies.items, after.submission)))
    ensures r.Ok? && c.submission != null ==> after.submission == c.submission
    ensures r.Ok? && c.submission == null && k.submission != null ==> after.submission == k.submission
    ensures r.Ok? && !fresh(after.submission) ==>
      after.submission.commentsById == IndexForest(cfg, old(after.submission.commentsById), AttachAll(list, after.submission)) &&
      (old(after.submission.IndexValid(cfg)) ==> after.submission.IndexValid(cfg))
    ensures r.Ok? && c.submission == null && k.submission == null ==>
      fresh(after.submission) && after.submission.id == ExtractSubmissionId(Merge(c, k)).value &&
      after.submission.IndexValid(cfg) &&
      after.submission.commentsById == IndexForest(cfg, map[], AttachAll(list, after.submission))
    ensures r.Ok? ==> Fullnames(cfg, Flatten(list)) <= after.submission.commentsById.Keys
  {
    after := Merge(c, k);
    var sr;
    after, sr := GetSubmission(after);
    if sr.Err? {
      return after, Err(sr.error);
    }
    var s := sr.value;
    LinkAll(cfg, list, s);
    after := after.(replies := k.replies.(items := AttachAll(k.replies.items, s)));
    r := Ok(());
  }

  /** The position of the first node with the target id in a popping order. */
  function FirstWithId(vs: seq<Node>, target: string): (k: nat)
    requires exists i :: 0 <= i < |vs| && vs[i].Id() == target
    ensures k < |vs| && vs[k].Id() == target
    ensures forall j :: 0 <= j < k ==> vs[j].Id() != target
  {
    if vs[0].Id() == target then 0
    else
      assert exists i :: 0 <= i < |vs[1..]| && vs[1..][i].Id() == target by {
        var i :| 0 <= i < |vs| && vs[i].Id() == target;
        assert vs[1..][i - 1] == vs[i];
      }
      1 + FirstWithId(vs[1..], target)
  }

  /** When a node with the target id is reachable, the search ends on the
      first one in popping order. */
  lemma FirstWithIdIsFound(list: seq<Node>, target: string)
    requires Reachable(list, target)
    ensures exists i :: 0 <= i < |Visit(list)| && Visit(list)[i].Id() == target
    ensures StopFrom(None, Visit(list), target) == Some(Visit(list)[FirstWithId(Visit(list), target)])
  {
    SearchFindsReachable(list, target);
    var vs := Visit(list);
    var r := StopFrom(None, vs, target);
    var k :| 0 <= k < |vs| && r.value == vs[k] && forall j :: 0 <= j < k ==> vs[j].Id() != target;
    var f := FirstWithId(vs, target);
    assert f == k;
  }
}
