/** The identity rules of a Redditor (praw/models/reddit/redditor.py):
    construction from exactly one of a name, a fullname or a payload, the
    "[deleted]" sentinel, the wrapping of `subreddit`, the merge done by a
    fetch and the name resolution done before it. */
module Redditors {
  import opened Values

  const ExactlyOneMessage := "Exactly one of 'name', 'fullname', or '_data' must be provided."
  const BugMessage := "Please file a bug with PRAW."
  const DeletedSentinel := "[deleted]"

  /** A stored attribute: a plain value, or a UserSubreddit built from a payload. */
  datatype Attr = Plain(v: Value) | UserSubreddit(data: Value)

  /** An instance's attribute store (its `__dict__`). */
  type Attrs = map<string, Attr>

  /** What `__setattr__` stores under `name` for `value`. */
  function Stored(name: string, value: Value): (a: Attr)
    ensures a.UserSubreddit? <==> name == "subreddit" && Truthy(value)
    ensures a.UserSubreddit? ==> a.data == value
    ensures a.Plain? ==> a.v == value
  {
    if name == "subreddit" && Truthy(value) then UserSubreddit(value) else Plain(value)
  }

  /** The store after assigning every key of a payload through `__setattr__`. */
  function Load(data: map<string, Value>): (r: Attrs)
    ensures r.Keys == data.Keys
    ensures forall k :: k in data ==> r[k] == Stored(k, data[k])
  {
    map k | k in data :: Stored(k, data[k])
  }

  /** Only `subreddit` can ever hold a wrapped value. */
  predicate PlainExceptSubreddit(a: Attrs)
  {
    forall k :: k in a && k != "subreddit" ==> a[k].Plain?
  }

  /** The attribute store `Redditor(reddit, name, fullname, _data)` starts with,
      or the exception it raises. `Null` stands for an argument not given. */
  function InitialAttrs(name: Value, fullname: Value, data: Value): (r: Result<Attrs>)
    ensures CountGiven(!name.Null?, !fullname.Null?, !data.Null?) != 1 <==> r == Err(TypeError(ExactlyOneMessage))
    ensures r == Err(AssertionError(BugMessage)) <==>
      CountGiven(!name.Null?, !fullname.Null?, !data.Null?) == 1 && Truthy(data) && !(data.Dict? && "name" in data.fields)
    ensures r.Ok? && !(data.Dict? && "_listing_use_sort" in data.fields) ==>
      "_listing_use_sort" in r.value && r.value["_listing_use_sort"] == Plain(Bool(true))
    ensures r.Ok? && !name.Null? ==> "name" in r.value && r.value["name"] == Plain(name) && "_fullname" !in r.value
    ensures r.Ok? && !fullname.Null? ==> "_fullname" in r.value && r.value["_fullname"] == Plain(fullname) && "name" !in r.value
    ensures r.Ok? && data.Dict? ==> forall k :: k in data.fields ==> k in r.value && r.value[k] == Stored(k, data.fields[k])
    ensures r.Ok? ==> ("name" in r.value || "_fullname" in r.value) && PlainExceptSubreddit(r.value)
  {
    if CountGiven(!name.Null?, !fullname.Null?, !data.Null?) != 1 then Err(TypeError(ExactlyOneMessage))
    else if Truthy(data) && !(data.Dict? && "name" in data.fields) then Err(AssertionError(BugMessage))
    else
      var own: Attrs :=
        if Truthy(name) then map["name" := Stored("name", name)]
        else if Truthy(fullname) then map["_fullname" := Stored("_fullname", fullname)]
        else map[];
      var loaded := if data.Dict? then Load(data.fields) else map[];
      var a := map["_listing_use_sort" := Plain(Bool(true))] + own + loaded;
      // The base class refuses an instance that ends up without its identity field.
      if "name" in a || "_fullname" in a then Ok(a) else Err(ValueError("name"))
  }

  /** `Redditor.from_data(reddit, data)`: `None` for the deleted-user sentinel,
      otherwise the Redditor built with `data` passed as its name. */
  function FromData(data: Value): (r: Result<Option<Attrs>>)
    ensures r == Ok(None) <==> data == Str(DeletedSentinel)
    ensures data != Str(DeletedSentinel) ==>
      (r.Ok? <==> InitialAttrs(data, Null, Null).Ok?) &&
      (r.Ok? ==> r.value == Some(InitialAttrs(data, Null, Null).value)) &&
      (r.Err? ==> r.error == InitialAttrs(data, Null, Null).error)
  {
    if data == Str(DeletedSentinel) then Ok(None)
    else
      var a :- InitialAttrs(data, Null, Null);
      Ok(Some(a))
  }

  /** A Redditor built from a non-empty name stores that name and the sort
      flag only; an empty name leaves it without identity. */
  lemma ConstructFromName(n: string)
    ensures n != "" ==> InitialAttrs(Str(n), Null, Null) == Ok(map["_listing_use_sort" := Plain(Bool(true)), "name" := Plain(Str(n))])
    ensures n == "" ==> InitialAttrs(Str(n), Null, Null) == Err(ValueError("name"))
  {
    var base: Attrs := map["_listing_use_sort" := Plain(Bool(true))];
    var own: Attrs := map["name" := Stored("name", Str(n))];
    assert base + own + map[] == map["_listing_use_sort" := Plain(Bool(true)), "name" := Plain(Str(n))];
  }

  /** A Redditor built from a non-empty fullname stores `_fullname` and no name. */
  lemma ConstructFromFullname(f: string)
    ensures f != "" ==> InitialAttrs(Null, Str(f), Null) == Ok(map["_listing_use_sort" := Plain(Bool(true)), "_fullname" := Plain(Str(f))])
    ensures f == "" ==> InitialAttrs(Null, Str(f), Null) == Err(ValueError("name"))
  {
    var base: Attrs := map["_listing_use_sort" := Plain(Bool(true))];
    var own: Attrs := map["_fullname" := Stored("_fullname", Str(f))];
    assert base + own + map[] == map["_listing_use_sort" := Plain(Bool(true)), "_fullname" := Plain(Str(f))];
  }

  /** A payload with a name yields exactly the payload's keys (each stored
      through `__setattr__`) and the sort flag unless the payload sets it. */
  lemma ConstructFromData(m: map<string, Value>)
    requires "name" in m
    ensures InitialAttrs(Null, Null, Dict(m)).Ok?
    ensures InitialAttrs(Null, Null, Dict(m)).value.Keys == m.Keys + {"_listing_use_sort"}
    ensures InitialAttrs(Null, Null, Dict(m)).value["name"] == Plain(m["name"])
  {
  }

  /** `from_data` on the author field of a payload: the sentinel gives no
      Redditor, a name gives one, a missing author (`null`) breaks the
      exactly-one rule. */
  lemma FromDataExamples()
    ensures FromData(Str("[deleted]")) == Ok(None)
    ensures FromData(Str("spez")) == Ok(Some(map["_listing_use_sort" := Plain(Bool(true)), "name" := Plain(Str("spez"))]))
    ensures FromData(Str("")) == Err(ValueError("name"))
    ensures FromData(Null) == Err(TypeError(ExactlyOneMessage))
  {
    assert Str("spez") != Str(DeletedSentinel);
    ConstructFromName("spez");
    ConstructFromName("");
  }

  /** `Redditor.moderated()` given the server's answer: the answer when it is
      truthy, else an empty list. */
  function Moderated(response: Value): (r: Value)
    ensures Truthy(r) <==> Truthy(response)
    ensures Truthy(response) ==> r == response
    ensures !Truthy(r) ==> r == List([])
  {
    Or(response, List([]))
  }

  class Redditor {
    var attrs: Attrs

    /** Every instance keeps its identity field and wraps nothing but `subreddit`. */
    ghost predicate Valid()
      reads this
    {
      ("name" in attrs || "_fullname" in attrs) && PlainExceptSubreddit(attrs)
    }

    constructor FromAttrs(initial: Attrs)
      requires "name" in initial || "_fullname" in initial
      requires PlainExceptSubreddit(initial)
      ensures Valid() && attrs == initial
    {
      attrs := initial;
    }

    /** `Redditor(reddit, name=..., fullname=..., _data=...)`. */
    static method New(name: Value, fullname: Value, data: Value) returns (r: Result<Redditor>)
      ensures r.Ok? <==> InitialAttrs(name, fullname, data).Ok?
      ensures r.Err? ==> r.error == InitialAttrs(name, fullname, data).error
      ensures r.Ok? ==> fresh(r.value) && r.value.Valid() && r.value.attrs == InitialAttrs(name, fullname, data).value
    {
      var a := InitialAttrs(name, fullname, data);
      if a.Err? {
        return Err(a.error);
      }
      var u := new Redditor.FromAttrs(a.value);
      return Ok(u);
    }

    /** `redditor.<name> = value`. */
    method SetAttr(name: string, value: Value)
      requires Valid()
      modifies this
      ensures Valid()
      ensures attrs == old(attrs)[name := Stored(name, value)]
    {
      attrs := attrs[name := Stored(name, value)];
    }

    /** `_fetch`: build a Redditor from `response["data"]` and merge its whole
        store into this one. On an exception nothing changes. */
    method Fetch(response: Value) returns (r: Result<()>)
      requires Valid()
      modifies this
      ensures Valid()
      ensures r.Ok? <==> Subscript(response, "data").Ok? && InitialAttrs(Null, Null, Subscript(response, "data").value).Ok?
      ensures r.Ok? ==> attrs == old(attrs) + InitialAttrs(Null, Null, Subscript(response, "data").value).value
      ensures r.Err? ==> attrs == old(attrs)
      ensures r.Err? ==> r.error == (if Subscript(response, "data").Err? then Subscript(response, "data").error
                                     else InitialAttrs(Null, Null, Subscript(response, "data").value).error)
    {
      var data := Subscript(response, "data");
      if data.Err? {
        return Err(data.error);
      }
      var other := InitialAttrs(Null, Null, data.value);
      if other.Err? {
        return Err(other.error);
      }
      attrs := attrs + other.value;
      return Ok(());
    }

    /** `_fetch_info`: when the instance holds a fullname, first replace `name`
        with the name the server gives for it (`resolve`, the network lookup);
        then request `user_about` for that name. */
    method FetchInfo(resolve: Value -> Value) returns (req: InfoRequest)
      requires Valid()
      modifies this
      ensures Valid()
      ensures "_fullname" in old(attrs) ==> attrs == old(attrs)["name" := Plain(resolve(old(attrs)["_fullname"].v))]
      ensures "_fullname" !in old(attrs) ==> attrs == old(attrs)
      ensures "name" in attrs && req == InfoRequest("user_about", map["user" := attrs["name"].v], None)
    {
      if "_fullname" in attrs {
        SetAttr("name", resolve(attrs["_fullname"].v));
      }
      req := InfoRequest("user_about", map["user" := attrs["name"].v], None);
    }
  }
}
