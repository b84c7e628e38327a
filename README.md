# PRAW comments, listings and redditors in Dafny

This project models three pieces of entity logic from PRAW, the Python Reddit API wrapper:

- **Comment identity and comment-tree navigation** (`praw/models/reddit/comment.py`), in modules `CommentModel` and `Comments`. It covers:
  - the exactly-one-of-`id`/`url`/`_data` constructor rule and the `_fetched` flag it sets;
  - permalink parsing (`id_from_url`) and the fullname-prefix tests (`is_root`, `_extract_submission_id`);
  - `__setattr__`, `_fetch` (given the response) and `_fetch_info`;
  - case-insensitive equality;
  - the `submission` getter and setter. The setter registers a comment and all its replies in the submission's `_comments_by_id` index.
  - `replies`, `parent()`, and `refresh()` with its LIFO stack search through the returned reply tree.
- **Listing cursor policies** (`praw/models/listing/listing.py`), in module `Listings`: the child attribute and `AFTER_PARAM` of each listing kind, `len`, indexing, `__setattr__`, and how each kind derives `after`.
- **Redditor construction** (`praw/models/reddit/redditor.py`), in module `Redditors`: the exactly-one-of-`name`/`fullname`/`_data` rule, the payload assertion, the `"[deleted]"` sentinel of `from_data`, wrapping of `subreddit`, the merge done by `_fetch`, the name resolution done by `_fetch_info`, and `moderated()`'s empty default.

Shared modules:

- `Values` holds Python-level values, truthiness, `or`, subscripting with negative list indices, and the exception kinds.
- `Strings` holds `str.split`, `split(sep, n)`, `rsplit(sep, n)`, `join`, `list.index` and ASCII case folding, with their round-trip laws.

Design:

- A comment is a value: a finite tree whose `replies` hold comments and MoreComments placeholders (leaves).
- A `Submission` is a class whose `commentsById` map is updated in place by the `submission` setter.
- A `Redditor` is a class whose attribute map is updated in place by `__setattr__`, `_fetch` and `_fetch_info`.
- An operation that mutates a comment in the source returns the comment's new state.
- The unseen collaborators are parameters:
  - `CommentModel.Config` holds the kinds (`"t1"`, `"t3"`), `RedditBase._url_parts` and the objectifier applied to a `replies` payload;
  - the objectifier of a listing's child attribute is the `objectify` parameter of `Listings.SetAttr`;
  - the network lookup of a username is the `resolve` parameter of `Redditors.Redditor.FetchInfo`.
- Network responses are inputs.

The stack search of `refresh` is specified by `CommentModel.Visit`, the order in which the loop pops nodes. Two lemmas give it meaning:

- `Visit` pops every reachable node exactly once: it is a permutation of the pre-order `Flatten`.
- The loop ends on a node with the comment's id exactly when such a node is reachable through comment replies, and then on the first such node in popping order.

The termination measure of the search is the total size of the trees still on the stack.

Three behaviours of the code deserve a note:

- `SetSubmission`: the index stores each comment's state once all assignments are done. The source stores the object, which every later assignment keeps changing in place.
- `Fetch`: the merge copies the freshly built comment's empty `_submission` over the comment's own. `refresh` guards against this and `_fetch` does not. The model follows the code.
- `Refresh`: afterwards the comment holds the found node's reply list, whose entries are now linked to the submission. This is because the comment and the found node share one list object.

## Model

| member | source | states |
|---|---|---|
| Comments.IdFromUrl | praw/models/reddit/comment.py:64-74 | the id is the last path segment exactly when the first "comments" segment is fourth from the end; otherwise InvalidURL(url) |
| Comments.IdFromUrlExamples | tests/unit/models/reddit/test_comment.py:71-97 | the valid permalink shapes yield "cklhv0f"; the short and misshapen paths of the invalid-URL test are refused |
| Comments.ReplyItems | praw/models/reddit/comment.py:173-175 | a `replies` payload of "" becomes no replies, anything else the objectified children |
| Comments.SetAttr | praw/models/reddit/comment.py:165-178 | `author` goes through `Redditor.from_data` and its errors propagate; `replies` sets the raw `_replies` list; `subreddit` is wrapped; the properties `submission`, `is_root` and `_kind` refuse a plain value with AttributeError; anything else is stored as given; nothing else changes |
| Comments.SetAttrIdempotent | praw/models/reddit/comment.py:165-178 | assigning the same value twice equals assigning it once |
| Comments.LoadData | praw/models/reddit/comment.py:154-163 | a payload yields a fetched, unlinked comment whose attributes are the payload's keys minus `id`/`replies`, and assigning any key again changes nothing; the replies are empty when the payload has none; no `id` gives ValueError; an author error propagates; a key naming one of Comment's properties gives that property's AttributeError |
| Comments.New | praw/models/reddit/comment.py:151-163 | not exactly one of id/url/_data gives TypeError with the fixed message; a truthy id or url gives an unfetched comment with that id or the parsed one; an empty id or url gives ValueError; a url fails with `_url_parts`' error or with InvalidURL(url); a payload gives LoadData's result; fetched exactly when built from a payload |
| Comments.FromPayload | praw/models/reddit/comment.py:193-194 | `Comment(reddit, _data=...)` on a decoded value: `null` breaks the exactly-one rule; a dict is loaded |
| Comments.StrAttr | praw/models/reddit/comment.py:182-183 | reading a string attribute; a missing one is AttributeError(name) |
| Comments.IsRoot | praw/models/reddit/comment.py:96-99 | defined exactly when `parent_id` can be read |
| Comments.IsRootIff | praw/models/reddit/comment.py:96-99 | top-level exactly when `parent_id` is the submission kind alone or starts with the kind and "_"; an underscore in the kind makes no comment top-level |
| Comments.IsRootOfFullnames | praw/models/reddit/comment.py:40-42 | a parent that is the submission's fullname is root; one that is a comment's fullname is not |
| Comments.ExtractSubmissionId | praw/models/reddit/comment.py:180-183 | uses `context` when present, else `link_id`; succeeds exactly when the separator occurs; otherwise IndexError, or the attribute error |
| Comments.ExtractFromLinkId | praw/models/reddit/comment.py:183 | a `link_id` that is the submission's fullname yields the submission id |
| Comments.ExtractFromContext | praw/models/reddit/comment.py:182 | a context `<prefix>/<submission>/<slug>/<comment>/<query>` yields the submission id for every prefix |
| Comments.ExtractFromContextExample | praw/models/reddit/comment.py:182 | "/r/redditdev/comments/2gmzqe/_/cklhv0f/?context=3" yields "2gmzqe" |
| Comments.Fetch | praw/models/reddit/comment.py:185-196 | a falsy child list gives ClientException("No data returned for comment " + fullname); otherwise it succeeds exactly when the first child's payload can be read and loaded, and fails with that error otherwise; the result holds the payload (loaded), its attributes are exactly the old ones plus the payload's keys other than `id`/`replies`, old attributes the payload lacks keep their values, the replies are empty when the payload has none, and it is fetched and unlinked |
| Comments.FetchInfo | praw/models/reddit/comment.py:198-199 | requests `info` with no path fields and exactly one parameter, `id`, a string |
| Comments.FetchInfoRoundTrip | praw/models/reddit/comment.py:198-199 | the `id` parameter splits back into the comment kind and the comment's id |
| Comments.SameCommentIsEquivalence | tests/unit/models/reddit/test_comment.py:47-58 | comment equality is reflexive, symmetric and transitive, and agrees with comparing to the other's id |
| Comments.EqualityExamples | tests/unit/models/reddit/test_comment.py:47-58 | comments loaded from "dummy1" and "Dummy1" are equal and equal "dummy1"; neither equals "dummy3"'s; a loaded comment is fetched |
| Comments.GetSubmission | praw/models/reddit/comment.py:128-133 | returns the linked submission; otherwise creates a fresh, empty one for the extracted id and remembers it, or fails with the extraction's error and changes nothing |
| Comments.Replies | praw/models/reddit/comment.py:124-133 | the first read turns the raw list into a forest of the submission, creating it when unlinked as a fresh, empty submission for the extracted id; a forest is returned unchanged, so a second read changes nothing |
| Comments.SetSubmission | praw/models/reddit/comment.py:135-141 | the result is the linked tree; the index becomes IndexComment of the old one; its keys grow by exactly the fullnames of the comment and all its descendants; a valid index stays valid |
| Comments.LinkAll | praw/models/reddit/comment.py:140-141 | assigning the submission to every entry of a reply list, in order, adds exactly the fullnames reachable from it and keeps the index valid |
| Comments.LazyParentId | praw/models/reddit/comment.py:260 | defined exactly when `parent_id` has an underscore; it is the text after the first one, and the text before has none |
| Comments.LazyParentRoundTrip | praw/models/reddit/comment.py:260 | the lazy parent built from a comment's fullname has that comment's id |
| Comments.Parent | praw/models/reddit/comment.py:253-262 | a missing `parent_id` fails before anything else; then `submission` is read, which may create and remember it or fail with no change; a non-string `parent_id` fails after that; the submission when `parent_id` is its fullname; else the indexed comment under `parent_id`; else a new unfetched comment for the id after "_", linked to the same submission; it fails only with IndexError when there is no "_" or ValueError when the text after it is empty |
| Comments.LifoSearch | praw/models/reddit/comment.py:295-300 | the loop stops where the popping order says; it finds a node with the id exactly when one is reachable; the node found is in the tree; nothing is found only for an empty list |
| Comments.Merge | praw/models/reddit/comment.py:305-307 | `__dict__.update`: the found node's id, replies, flag and attributes win; other attributes are kept; an existing submission is kept |
| Comments.FirstWithId | praw/models/reddit/comment.py:297 | the first position in a popping order whose node has the id |
| Comments.FirstWithIdIsFound | praw/models/reddit/comment.py:295-303 | when the id is reachable, the search ends on the first node with it in popping order |
| Comments.Refresh | praw/models/reddit/comment.py:278-311 | succeeds exactly when the first submission lookup succeeds, the search ends on a comment with the id, and the lookup after the merge succeeds; a failing first lookup is reported with no change; an empty list or an unreachable id gives ClientException(MISSING) with only the first lookup's effect; a failing second lookup leaves the merged state; on every failure no existing submission is written; on success the merged state is that of the first reachable node with the id, an existing submission is kept, a newly created one has the id extracted before the merge (no `context`) or after it (with `context`), the index becomes IndexForest of the old one over the linked list and stays valid, and only that one submission is written |
| Comments.MergeAndLink | praw/models/reddit/comment.py:305-311 | merges the found comment, then links every returned entry; fails exactly when neither comment is linked and the merged attributes give no submission id; on success the index grows as IndexForest says and stays valid |
| Comments.FoundComment | praw/models/reddit/comment.py:295-303 | the comment the search ends on has the searched id and is reachable in the returned tree |
| CommentModel.Children | praw/models/reddit/comment.py:299-300 | what a popped node pushes is smaller than the node |
| CommentModel.ForestSizeBound | praw/models/reddit/comment.py:140-141 | each entry of a reply list is no larger than the whole list |
| CommentModel.VisitIsPermutation | praw/models/reddit/comment.py:295-300 | the stack pops every reachable node exactly once |
| CommentModel.StopFromFirst | praw/models/reddit/comment.py:297-298 | the loop condition stops at a node with the id exactly when one is pending, at the first such node |
| CommentModel.SearchFindsReachable | praw/models/reddit/comment.py:295-303 | the search from a list ends on a node with the id exactly when one is reachable, and on the first in popping order |
| CommentModel.AttachKeepsFullnames | praw/models/reddit/comment.py:140-141 | linking a reply list leaves its set of fullnames unchanged |
| CommentModel.AttachNodeKeepsFullnames | praw/models/reddit/comment.py:138-141 | linking one entry leaves the fullnames of its subtree unchanged |
| CommentModel.AttachLinksAll | praw/models/reddit/comment.py:140-141 | after linking, every comment in the reply tree points to the submission |
| CommentModel.AttachNodeLinksAll | praw/models/reddit/comment.py:139-141 | after linking one entry, every comment in its subtree points to the submission |
| CommentModel.IndexCommentKeys | praw/models/reddit/comment.py:138-141 | registering a comment adds exactly the fullnames of it and its descendants |
| CommentModel.IndexForestKeys | praw/models/reddit/comment.py:140-141 | registering a reply list adds exactly its reachable fullnames |
| CommentModel.IndexCommentKeeps | praw/models/reddit/comment.py:138-141 | registering a linked comment keeps every entry under its own fullname and linked to the submission |
| CommentModel.IndexForestKeeps | praw/models/reddit/comment.py:140-141 | the same for a linked reply list |
| Listings.ChildAttribute | praw/models/listing/listing.py:20-71 | "children" by default, "users", "mod_notes", "moderators" and "conversations" for the subclasses |
| Listings.ChildAttributeInjective | praw/models/listing/listing.py:20-71 | no two kinds share a child attribute |
| Listings.AfterParam | praw/models/listing/listing.py:19-51 | "before" exactly for mod-note listings, "after" for every other kind |
| Listings.Items | praw/models/listing/listing.py:24 | the child attribute's value, or AttributeError when unset |
| Listings.Len | praw/models/listing/listing.py:26-28 | the number of items in a list-valued child attribute, or of characters in a string-valued one |
| Listings.GetItem | praw/models/listing/listing.py:22-24 | a missing child attribute is AttributeError; on a list or a string, positions -n..n-1 give the item (for a string, the one-character string), negative ones counted from the end, and others IndexError; any other value fails |
| Listings.GetItemWithinLen | praw/models/listing/listing.py:22-28 | positions -n..n-1 exist and others are IndexError; position i is the i-th item and i-n names the same item |
| Listings.SetAttr | praw/models/listing/listing.py:30-34 | the child attribute stores the objectified value, any other the value as given; nothing else changes |
| Listings.SetAttrItems | praw/models/listing/listing.py:30-34 | assigning the child attribute sets the items; assigning anything else leaves items, length and indexing alone |
| Listings.After | praw/models/listing/listing.py:42-82 | plain and moderator listings read `after`; flair reads `next` or None; mod notes give None when `has_next_page` is present and falsy, else `end_cursor` or None; modmail gives the `id` of `conversations[-1]`: None for no conversations (an empty list or string), AttributeError for a non-empty string, KeyError for a dict |
| Listings.ModNoteAfterIgnoresEndCursor | praw/models/listing/listing.py:54-59 | a falsy `has_next_page` gives None whatever `end_cursor` is; a missing one counts as true |
| Listings.ModmailAfterIsLastId | praw/models/listing/listing.py:76-82 | no conversations gives None; otherwise the id of the last conversation, which is also `listing[-1]` |
| Listings.FlairAfterFollowsNext | praw/models/listing/listing.py:42-45 | a flair listing's cursor never fails, and assigning `next` sets it |
| Redditors.Stored | praw/models/reddit/redditor.py:162-168 | `subreddit` with a truthy value is wrapped; every other assignment stores the value unchanged |
| Redditors.Load | praw/models/reddit/redditor.py:160-168 | loading a payload stores each key through `__setattr__` |
| Redditors.InitialAttrs | praw/models/reddit/redditor.py:148-160 | not exactly one of name/fullname/_data gives TypeError; a truthy payload without "name" gives AssertionError; a name stores `name` and no `_fullname`, a fullname the converse; the sort flag is set; the result always has an identity field |
| Redditors.ConstructFromName | praw/models/reddit/redditor.py:156-157 | a non-empty name gives exactly the name and the sort flag; an empty name gives ValueError |
| Redditors.ConstructFromFullname | praw/models/reddit/redditor.py:158-159 | a non-empty fullname gives `_fullname` and the sort flag, no name |
| Redditors.ConstructFromData | praw/models/reddit/redditor.py:151-160 | a payload with a name gives exactly its keys plus the sort flag |
| Redditors.FromData | praw/models/reddit/redditor.py:70-74 | None exactly for "[deleted]"; otherwise the Redditor built with the data as its name |
| Redditors.FromDataExamples | praw/models/reddit/redditor.py:70-74 | the sentinel, a name, an empty name and `null` |
| Redditors.Moderated | praw/models/reddit/redditor.py:309 | the response when truthy, else the empty list |
| Redditors.Redditor.New | praw/models/reddit/redditor.py:148-160 | a fresh valid Redditor holding InitialAttrs, or its error |
| Redditors.Redditor.SetAttr | praw/models/reddit/redditor.py:162-168 | stores the value as `Stored` says and keeps the instance valid |
| Redditors.Redditor.Fetch | praw/models/reddit/redditor.py:170-175 | merges every field of a Redditor built from `response["data"]` into the instance; on an error nothing changes and the error is that of reading `data` or of building the Redditor |
| Redditors.Redditor.FetchInfo | praw/models/reddit/redditor.py:177-183 | with `_fullname`, first replaces `name` by the resolved one; always requests `user_about` for the name |
| Strings.SplitOnce | praw/models/reddit/comment.py:98 | `split("_", 1)` gives the text before the first separator, and a second part exactly when the separator occurs |
| Strings.FullnameSplit | praw/models/reddit/comment.py:183 | `kind_id` with an underscore-free kind splits once into `[kind, id]` |
| Strings.IndexOf | praw/models/reddit/comment.py:67-70 | `list.index`: the first occurrence, or none |
| Strings.SameIgnoringCaseIff | tests/unit/models/reddit/test_comment.py:47-58 | equal ignoring case exactly when of equal length and letter by letter equal once folded |
| Values.CountGiven | praw/models/reddit/comment.py:151 | how many of three arguments are given; zero and one characterised |
| Values.ListIndex | praw/models/listing/listing.py:24 | list indexing with negative positions counted from the end; IndexError outside |

## Left out

- Network calls and their wrappers are left out; the responses they return are inputs. This covers `_fetch_data`, `self._reddit.get`, `_fetch_username` (a parameter of `Redditor.FetchInfo`), the RPC methods of Redditor and CommentModeration, streams, `notes`, `mod` and `cachedproperty`.
- Comments.Refresh: the request path and parameters (`context`, `reply_limit`, `reply_sort`) are not computed. Only the `submission` lookup that computing the path performs is modelled.
- Comments.Refresh: a search that ends on a MoreComments placeholder carrying the comment's id is reported as missing. The source merges the placeholder's attributes, which are not part of this model.
- MoreComments is a leaf with an id. The source also assigns `submission` to a placeholder; that assignment is not modelled.
- CommentForest is modelled as a submission and its entries only; its own methods are not part of this model.
- RedditBase is not part of this model. The ValueError for a missing identity field is raised in the code here instead.
- RedditBase's lazy fetch on reading an unknown attribute is not modelled: reading a missing attribute is an AttributeError.
- Hash values, `repr` and pickling are left out. `str(comment)` is the id, and equality uses it.
- Comments.StrAttr: a `parent_id`, `context` or `link_id` that is not a string gives TypeError. The source fails with AttributeError from `.split`/`.rsplit`, or with TypeError when the value cannot be a dict key. `Comments.Parent` still fails at the source's point, after reading `submission`.
- Comments.SetAttr: a non-string `id` is refused with TypeError; the source would store any value. Assigning a Submission object through `__setattr__` is modelled by `SetSubmission`, not here. The properties of the base classes (such as `fullname`) are not part of this model and are stored as plain attributes.
- Payload keys that name the private fields `_replies`, `_submission` or `_fetched` are stored as plain attributes.
- Comments.LoadData: when several payload keys would fail, the model reports the author error first, then a property name, then the `id` check. The source reports whichever key comes first in the payload's order.
- Comments.FromPayload: a payload that is neither `null` nor a dict is refused with TypeError rather than failing inside the loader.
- `Subreddit` and `UserSubreddit` construction is not part of this model: the display name or the payload is kept as given.
- Objectification is a parameter, giving the children of a `replies` payload and the value of a listing's child attribute.
- Strings.Lower: case folding covers ASCII letters only.
- Listings.Len: only a list- or string-valued child attribute has a length here; a dict, which Python also measures, gives TypeError.
- Listings.GetItem: only a list- or string-valued child attribute is indexed by position; a dict gives TypeError where Python raises KeyError for the integer key.
- Redditors.Redditor.Fetch: the `_fetched` flag set by the base class's `_fetch` is not modelled.
- Aliasing between comment objects is not modelled, since comments are values. The index holds each comment's final state, and the comment refreshed from a search result holds the linked state of the shared reply list.
- Listings.After: the KeyError raised by a dict `conversations` carries the key as the text "-1", since errors here hold string keys.
- The pagination generator that reads `after` and `AFTER_PARAM` is not part of this model.
