/** Listings (praw/models/listing/listing.py): a collection whose items sit in
    one child attribute, whose kind fixes that attribute's name and the name of
    the pagination parameter, and whose `after` cursor is derived from its own
    attributes. */
module Listings {
  import opened Values

  /** `Listing` and the subclasses that change its class attributes or `after`. */
  datatype Kind = PlainListing | FlairListing | ModNoteListing | ModeratorListing | ModmailConversationsListing

  /** A listing: its kind and its attribute store. */
  datatype Listing = Listing(kind: Kind, attrs: map<string, Value>)

  /** `CHILD_ATTRIBUTE`. */
  function ChildAttribute(k: Kind): (name: string)
    ensures name == "children" <==> k == PlainListing
  {
    match k
    case PlainListing => "children"
    case FlairListing => "users"
    case ModNoteListing => "mod_notes"
    case ModeratorListing => "moderators"
    case ModmailConversationsListing => "conversations"
  }

  /** Every kind keeps its items under a name of its own. */
  lemma ChildAttributeInjective(a: Kind, b: Kind)
    ensures ChildAttribute(a) == ChildAttribute(b) <==> a == b
  {
  }

  /** `AFTER_PARAM`. */
  function AfterParam(k: Kind): (name: string)
    ensures name == "before" <==> k == ModNoteListing
    ensures name == "after" <==> k != ModNoteListing
  {
    if k == ModNoteListing then "before" else "after"
  }

  /** `getattr(listing, name, default)`. */
  function GetAttr(l: Listing, name: string, default: Value): (v: Value)
    ensures name in l.attrs ==> v == l.attrs[name]
    ensures name !in l.attrs ==> v == default
  {
    if name in l.attrs then l.attrs[name] else default
  }

  /** `getattr(listing, CHILD_ATTRIBUTE)`. */
  function Items(l: Listing): (r: Result<Value>)
    ensures r.Ok? <==> ChildAttribute(l.kind) in l.attrs
    ensures r.Ok? ==> r.value == l.attrs[ChildAttribute(l.kind)]
    ensures r.Err? ==> r.error == AttributeError(ChildAttribute(l.kind))
  {
    var name := ChildAttribute(l.kind);
    if name in l.attrs then Ok(l.attrs[name]) else Err(AttributeError(name))
  }

  /** The elements of a value Python can measure and index by position: a
      list's items, or a string's characters as one-character strings. */
  function Elements(v: Value): (r: Option<seq<Value>>)
    ensures r.Some? <==> v.List? || v.Str?
    ensures v.List? ==> r == Some(v.items)
    ensures v.Str? ==> |r.value| == |v.s| && forall i :: 0 <= i < |v.s| ==> r.value[i] == Str([v.s[i]])
  {
    match v
    case List(xs) => Some(xs)
    case Str(s) => Some(seq(|s|, i requires 0 <= i < |s| => Str([s[i]])))
    case _ => None
  }

  /** `len(listing)`: the number of items in the child attribute. */
  function Len(l: Listing): (r: Result<nat>)
    ensures r.Ok? <==> Items(l).Ok? && Elements(Items(l).value).Some?
    ensures r.Ok? ==> r.value == |Elements(Items(l).value).value|
    ensures Items(l).Ok? && Items(l).value.List? ==> r == Ok(|Items(l).value.items|)
    ensures Items(l).Ok? && Items(l).value.Str? ==> r == Ok(|Items(l).value.s|)
  {
    var items :- Items(l);
    match Elements(items)
    case Some(xs) => Ok(|xs|)
    case None => Err(TypeError("object has no len()"))
  }

  /** `listing[index]`: the item at that position of the child attribute,
      negative positions counting from the end; a string gives its character. */
  function GetItem(l: Listing, index: int): (r: Result<Value>)
    ensures Items(l).Err? ==> r == Err(Items(l).error)
    ensures Items(l).Ok? && Elements(Items(l).value).Some? ==>
      var xs := Elements(Items(l).value).value;
      && (r.Ok? <==> -|xs| <= index < |xs|)
      && (r.Ok? ==> r.value == xs[if index < 0 then |xs| + index else index])
      && (r.Err? ==> r == Err(IndexError))
    ensures Items(l).Ok? && Items(l).value.Str? && 0 <= index < |Items(l).value.s| ==>
      r == Ok(Str([Items(l).value.s[index]]))
    ensures Items(l).Ok? && Elements(Items(l).value).None? ==> r.Err?
  {
    var items :- Items(l);
    match Elements(items)
    case Some(xs) => ListIndex(List(xs), index)
    case None => Err(TypeError("object is not subscriptable by position"))
  }

  /** Indexing agrees with the length: positions `-n .. n-1` exist, position
      `i` is the `i`-th item, and `i - n` names the same item as `i`. */
  lemma GetItemWithinLen(l: Listing, i: int)
    requires Len(l).Ok?
    ensures GetItem(l, i).Ok? <==> -(Len(l).value as int) <= i < Len(l).value
    ensures GetItem(l, i).Err? ==> GetItem(l, i) == Err(IndexError)
    ensures 0 <= i < Len(l).value ==>
      GetItem(l, i) == Ok(Elements(Items(l).value).value[i]) && GetItem(l, i - Len(l).value) == GetItem(l, i)
  {
  }

  /** `listing.<name> = value`: the child attribute stores the objectified
      value, any other attribute the value as given. */
  function SetAttr(l: Listing, name: string, value: Value, objectify: Value -> Value): (r: Listing)
    ensures r.kind == l.kind
    ensures r.attrs.Keys == l.attrs.Keys + {name}
    ensures forall k :: k in l.attrs && k != name ==> r.attrs[k] == l.attrs[k]
    ensures name == ChildAttribute(l.kind) ==> r.attrs[name] == objectify(value)
    ensures name != ChildAttribute(l.kind) ==> r.attrs[name] == value
  {
    if name == ChildAttribute(l.kind) then Listing(l.kind, l.attrs[name := objectify(value)])
    else Listing(l.kind, l.attrs[name := value])
  }

  /** After assigning the child attribute, the listing's items are the
      objectified value; assigning anything else leaves length and items alone. */
  lemma SetAttrItems(l: Listing, name: string, value: Value, objectify: Value -> Value)
    ensures name == ChildAttribute(l.kind) ==> Items(SetAttr(l, name, value, objectify)) == Ok(objectify(value))
    ensures name != ChildAttribute(l.kind) ==>
      Items(SetAttr(l, name, value, objectify)) == Items(l) &&
      Len(SetAttr(l, name, value, objectify)) == Len(l) &&
      forall i :: GetItem(SetAttr(l, name, value, objectify), i) == GetItem(l, i)
  {
  }

  /** The `id` of a conversation object: its `id` attribute. */
  function ConversationId(conversation: Value): (r: Result<Value>)
    ensures r.Ok? <==> conversation.Dict? && "id" in conversation.fields
    ensures r.Ok? ==> r.value == conversation.fields["id"]
  {
    if conversation.Dict? && "id" in conversation.fields then Ok(conversation.fields["id"])
    else Err(AttributeError("id"))
  }

  /** The cursor for the next page (`listing.after`). For modmail it is the
      `id` of `conversations[-1]`, and None when that indexing raises
      IndexError. */
  function After(l: Listing): (r: Result<Value>)
    ensures l.kind in {PlainListing, ModeratorListing} ==>
      (r.Ok? <==> "after" in l.attrs) && (r.Ok? ==> r.value == l.attrs["after"])
    ensures l.kind == FlairListing ==> r == Ok(if "next" in l.attrs then l.attrs["next"] else Null)
    ensures l.kind == ModNoteListing && "has_next_page" in l.attrs && !Truthy(l.attrs["has_next_page"]) ==> r == Ok(Null)
    ensures l.kind == ModNoteListing && !("has_next_page" in l.attrs && !Truthy(l.attrs["has_next_page"])) ==>
      r == Ok(if "end_cursor" in l.attrs then l.attrs["end_cursor"] else Null)
    ensures l.kind == ModmailConversationsListing && "conversations" !in l.attrs ==>
      r == Err(AttributeError("conversations"))
    ensures l.kind == ModmailConversationsListing && "conversations" in l.attrs ==>
      var cs := l.attrs["conversations"];
      && (Elements(cs) == Some([]) ==> r == Ok(Null))
      && (cs.Str? && cs.s != "" ==> r == Err(AttributeError("id")))
      && (cs.Dict? ==> r == Err(KeyError("-1")))
      && (Elements(cs).None? ==> r.Err?)
  {
    match l.kind
    case PlainListing | ModeratorListing =>
      if "after" in l.attrs then Ok(l.attrs["after"]) else Err(AttributeError("after"))
    case FlairListing => Ok(GetAttr(l, "next", Null))
    case ModNoteListing =>
      if !Truthy(GetAttr(l, "has_next_page", Bool(true))) then Ok(Null)
      else Ok(GetAttr(l, "end_cursor", Null))
    case ModmailConversationsListing =>
      if "conversations" !in l.attrs then Err(AttributeError("conversations"))
      else
        var conversations := l.attrs["conversations"];
        match Elements(conversations)
        case None =>
          if conversations.Dict? then Err(KeyError("-1")) else Err(TypeError("object is not subscriptable"))
        case Some(xs) =>
          match ListIndex(List(xs), -1)
          case Ok(last) => ConversationId(last)
          case Err(_) => Ok(Null)
  }

  /** A mod-note listing without a next page has no cursor, whatever its
      `end_cursor`; with `has_next_page` missing it pages by `end_cursor`. */
  lemma ModNoteAfterIgnoresEndCursor(l: Listing, cursor: Value)
    requires l.kind == ModNoteListing
    ensures "has_next_page" in l.attrs && !Truthy(l.attrs["has_next_page"]) ==>
      After(l) == After(l.(attrs := l.attrs["end_cursor" := cursor])) == Ok(Null)
    ensures "has_next_page" !in l.attrs ==>
      After(l.(attrs := l.attrs["end_cursor" := cursor])) == Ok(cursor)
  {
  }

  /** A modmail listing has a cursor exactly when it holds a conversation, and
      then it is the id of the last one. */
  lemma ModmailAfterIsLastId(l: Listing)
    requires l.kind == ModmailConversationsListing
    requires "conversations" in l.attrs && l.attrs["conversations"].List?
    ensures var cs := l.attrs["conversations"].items;
      && (cs == [] ==> After(l) == Ok(Null))
      && (cs != [] ==> After(l) == ConversationId(cs[|cs| - 1]))
      && (cs != [] ==> Len(l) == Ok(|cs|) && GetItem(l, -1) == Ok(cs[|cs| - 1]))
  {
  }

  /** A flair listing's cursor is its `next` attribute and it is never an error;
      assigning `next` sets the cursor. */
  lemma FlairAfterFollowsNext(l: Listing, next: Value, objectify: Value -> Value)
    requires l.kind == FlairListing
    ensures After(l).Ok?
    ensures After(SetAttr(l, "next", next, objectify)) == Ok(next)
  {
  }
}
