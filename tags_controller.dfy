/** `TagsController` of the mobile API over an in-memory table of tag rows.
    Route-model binding is taken to find a tag only among the caller's own
    (the route does not scope `{tag}` to its owner; the scoping is an
    assumption of the model); a miss is a 404. */
module TagsController {
  import opened Wrappers
  import opened JsonValues
  import opened Text
  import opened ServerModels
  import opened Sorting
  import opened Validation
  import TagModels

  /** `orderBy('name')` under a binary collation. */
  predicate NameLeq(a: ServerTag, b: ServerTag) {
    StrLeq(a.name, b.name)
  }

  lemma NameOrderIsPreorder()
    ensures TotalPreorder(NameLeq)
  {
    forall a: ServerTag, b: ServerTag
      ensures NameLeq(a, b) || NameLeq(b, a)
    {
      StrLeqTotal(a.name, b.name);
    }
    forall a: ServerTag, b: ServerTag, c: ServerTag | NameLeq(a, b) && NameLeq(b, c)
      ensures NameLeq(a, c)
    {
      StrLeqTrans(a.name, b.name, c.name);
    }
  }

  /** `forCurrentUser()`: the caller's rows, in table order. */
  function OwnedTags(rows: seq<ServerTag>, userId: int): (r: seq<ServerTag>)
    ensures forall t :: t in r <==> t in rows && t.userId == userId
    ensures |r| <= |rows|
  {
    if rows == [] then []
    else (if rows[0].userId == userId then [rows[0]] else []) + OwnedTags(rows[1..], userId)
  }

  /** `required|string|max:n`: a non-blank string of at most `n` characters. */
  predicate RequiredString(body: Json, key: string, n: nat) {
    var v := Field(body, key);
    v.Some? && v.value.JStr? && !IsBlank(v.value.s) && |v.value.s| <= n
  }

  /** The rules `store` and `update` share. */
  predicate TagValid(body: Json) {
    RequiredString(body, "name", 255) && RequiredString(body, "hex_color", 7)
  }

  /** The first of the caller's tags with that id. */
  function ResolveTag(rows: seq<ServerTag>, userId: int, id: int): (r: Option<nat>)
    ensures r.Some? ==> r.value < |rows| && rows[r.value].id == id && rows[r.value].userId == userId
    ensures r.None? ==> forall i :: 0 <= i < |rows| ==> !(rows[i].id == id && rows[i].userId == userId)
  {
    if rows == [] then None
    else if rows[0].id == id && rows[0].userId == userId then Some(0)
    else
      var r := ResolveTag(rows[1..], userId, id);
      assert forall i :: 1 <= i < |rows| ==> rows[i] == rows[1..][i - 1];
      if r.Some? then Some(r.value + 1) else None
  }

  class TagsTable {
    var tags: seq<ServerTag>
    var nextId: int

    ghost predicate Valid()
      reads this
    {
      forall i :: 0 <= i < |tags| ==> tags[i].id < nextId
    }

    constructor()
      ensures Valid() && tags == [] && nextId == 1
    {
      tags := [];
      nextId := 1;
    }

    /** `index`: the caller's tags by name. */
    method Index(userId: int) returns (r: seq<ServerTag>)
      ensures r == SortBy(OwnedTags(tags, userId), NameLeq)
      ensures SortedBy(r, NameLeq)
      ensures forall t :: t in r <==> t in tags && t.userId == userId
      ensures multiset(r) == multiset(OwnedTags(tags, userId))
    {
      var owned := OwnedTags(tags, userId);
      r := SortBy(owned, NameLeq);
      NameOrderIsPreorder();
      SortBySorted(owned, NameLeq);
      assert forall t :: t in r <==> t in multiset(owned);
    }

    /** `store`: a valid body creates a tag owned by the caller (201). */
    method Store(userId: int, body: Json) returns (status: int, created: Option<ServerTag>)
      requires Valid()
      modifies this
      ensures Valid()
      ensures !TagValid(body) ==> status == 422 && created.None? && tags == old(tags) && nextId == old(nextId)
      ensures TagValid(body) ==>
        && status == 201
        && created == Some(ServerTag(old(nextId), userId, body.fields["name"].s, body.fields["hex_color"].s))
        && tags == old(tags) + [created.value] && nextId == old(nextId) + 1
    {
      if !TagValid(body) {
        return 422, None;
      }
      var t := ServerTag(nextId, userId, body.fields["name"].s, body.fields["hex_color"].s);
      tags := tags + [t];
      nextId := nextId + 1;
      return 201, Some(t);
    }

    /** `update`: only the name and the colour change. */
    method Update(userId: int, id: int, body: Json) returns (status: int)
      requires Valid()
      modifies this
      ensures Valid() && nextId == old(nextId)
      ensures ResolveTag(old(tags), userId, id).None? ==> status == 404 && tags == old(tags)
      ensures ResolveTag(old(tags), userId, id).Some? && !TagValid(body) ==> status == 422 && tags == old(tags)
      ensures ResolveTag(old(tags), userId, id).Some? && TagValid(body) ==>
        var i := ResolveTag(old(tags), userId, id).value;
        && status == 200
        && tags == old(tags)[i := old(tags)[i].(name := body.fields["name"].s, hexColor := body.fields["hex_color"].s)]
    {
      var found := ResolveTag(tags, userId, id);
      if found.None? {
        return 404;
      }
      if !TagValid(body) {
        return 422;
      }
      var i := found.value;
      tags := tags[i := tags[i].(name := body.fields["name"].s, hexColor := body.fields["hex_color"].s)];
      status := 200;
    }

    /** `destroy`: the caller's tag leaves the table. */
    method Destroy(userId: int, id: int) returns (status: int)
      requires Valid()
      modifies this
      ensures Valid() && nextId == old(nextId)
      ensures ResolveTag(old(tags), userId, id).None? ==> status == 404 && tags == old(tags)
      ensures ResolveTag(old(tags), userId, id).Some? ==>
        var i := ResolveTag(old(tags), userId, id).value;
        status == 200 && tags == old(tags)[..i] + old(tags)[i + 1..]
    {
      var found := ResolveTag(tags, userId, id);
      if found.None? {
        return 404;
      }
      var i := found.value;
      ghost var before := tags;
      tags := tags[..i] + tags[i + 1..];
      assert forall k :: 0 <= k < |tags| ==> tags[k] in before;
      status := 200;
    }
  }

  /** An update keeps the tag's id and owner, so it stays in the same
      caller's list, and every other row is untouched. */
  lemma UpdateKeepsOwnerAndId(rows: seq<ServerTag>, i: nat, name: string, hex: string)
    requires i < |rows|
    ensures var r := rows[i := rows[i].(name := name, hexColor := hex)];
      && r[i].id == rows[i].id && r[i].userId == rows[i].userId
      && (forall k :: 0 <= k < |rows| && k != i ==> r[k] == rows[k])
      && |OwnedTags(r, rows[i].userId)| == |OwnedTags(rows, rows[i].userId)|
  {
    OwnedTagsCountUnchanged(rows, i, rows[i].(name := name, hexColor := hex));
  }

  lemma {:induction false} OwnedTagsCountUnchanged(rows: seq<ServerTag>, i: nat, t: ServerTag)
    requires i < |rows| && t.userId == rows[i].userId
    ensures |OwnedTags(rows[i := t], t.userId)| == |OwnedTags(rows, t.userId)|
  {
    if i > 0 {
      OwnedTagsCountUnchanged(rows[1..], i - 1, t);
      assert rows[i := t][1..] == rows[1..][i - 1 := t];
    } else {
      assert rows[i := t][1..] == rows[1..];
    }
  }

  /** Every predefined colour passes `max:7`, but a `#AARRGGBB` colour,
      which the app reads with its alpha byte, is nine characters long and
      is refused. */
  lemma ColourLengthRule(name: string, argb: string)
    requires !IsBlank(name) && |name| <= 255
    requires |argb| == 9 && argb[0] == '#' && TagModels.AllHex(argb[1..])
    ensures forall i :: 0 <= i < |TagModels.PredefinedColors| ==>
      TagValid(JObj(map["name" := JStr(name), "hex_color" := JStr(TagModels.PredefinedColors[i])]))
    ensures !TagValid(JObj(map["name" := JStr(name), "hex_color" := JStr(argb)]))
    ensures TagModels.ColorFromHex(argb).a == TagModels.HexValue(argb[1..3])
  {
    TagModels.PredefinedColorsShape();
    forall i | 0 <= i < |TagModels.PredefinedColors|
      ensures TagValid(JObj(map["name" := JStr(name), "hex_color" := JStr(TagModels.PredefinedColors[i])]))
    {
      var c := TagModels.PredefinedColors[i];
      assert c[0] == '#' && !IsTrimmable(c[0]);
    }
    TagModels.EightDigitColor(argb);
  }
}
