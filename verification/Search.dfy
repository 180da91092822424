/** The substring search of the updater (internal/update/updater.go). */
module Search {

  predicate OccursAt(s: string, substr: string, i: nat) {
    i + |substr| <= |s| && s[i..i + |substr|] == substr
  }

  /** indexOf: the first occurrence, or -1 exactly when there is none. */
  method IndexOf(s: string, substr: string) returns (r: int)
    ensures r == -1 || (r >= 0 && OccursAt(s, substr, r))
    ensures forall j: nat :: (r == -1 || j < r) ==> !OccursAt(s, substr, j)
  {
    var i := 0;
    while i <= |s| - |substr|
      invariant 0 <= i
      invariant forall j: nat :: j < i ==> !OccursAt(s, substr, j)
    {
      if s[i..i + |substr|] == substr {
        return i;
      }
      i := i + 1;
    }
    return -1;
  }

  const TagKey := "\"tag_name\":\""

  /** The tag of a body: what stands between the key's first occurrence and the next quote. */
  ghost predicate Tagged(body: string, tag: string) {
    exists pre, post :: TaggedBy(body, pre, tag, post)
  }

  ghost predicate TaggedBy(body: string, pre: string, tag: string, post: string) {
    && body == pre + TagKey + tag + "\"" + post && '\"' !in tag
    && forall j: nat :: j < |pre| ==> !OccursAt(body, TagKey, j)
  }

  /** extractTagName returns the tag of every body that has one, and otherwise the empty text. */
  method ExtractTagName(body: string) returns (tag: string)
    ensures Tagged(body, tag) || tag == ""
    ensures forall t :: Tagged(body, t) ==> t == tag
  {
    hide OccursAt, Tagged;
    var key := "\"tag_name\":\"";
    var idx := IndexOf(body, key);
    if idx < 0 {
      forall t ensures !Tagged(body, t) {
        NoKeyNoTag(body, t);
      }
      return "";
    }
    KeyFits(body, idx);
    var rest := body[idx + |key|..];
    var end := IndexOf(rest, "\"");
    forall t | Tagged(body, t) ensures end == |t| && t <= rest {
      TagPosition(body, t, idx, rest, end);
    }
    if end < 0 {
      return "";
    }
    TagFound(body, idx, rest, end);
    tag := rest[..end];
  }

  lemma KeyFits(body: string, i: nat)
    requires OccursAt(body, TagKey, i)
    ensures i + |TagKey| <= |body| && body == body[..i] + TagKey + body[i + |TagKey|..]
  {
  }

  lemma NoKeyNoTag(body: string, t: string)
    requires forall j: nat :: !OccursAt(body, TagKey, j)
    ensures !Tagged(body, t)
  {
    if pre, post :| TaggedBy(body, pre, t, post) {
      assert body[|pre|..|pre| + |TagKey|] == TagKey;
      assert OccursAt(body, TagKey, |pre|);
    }
  }

  lemma TagPosition(body: string, t: string, idx: nat, rest: string, end: int)
    requires Tagged(body, t)
    requires OccursAt(body, TagKey, idx) && forall j: nat :: j < idx ==> !OccursAt(body, TagKey, j)
    requires rest == body[idx + |TagKey|..]
    requires end == -1 || (end >= 0 && OccursAt(rest, "\"", end))
    requires forall j: nat :: (end == -1 || j < end) ==> !OccursAt(rest, "\"", j)
    ensures end == |t| && t <= rest
  {
    var pre, post :| TaggedBy(body, pre, t, post);
    assert body[|pre|..|pre| + |TagKey|] == TagKey;
    assert OccursAt(body, TagKey, |pre|);
    assert |pre| == idx;
    assert rest == t + "\"" + post;
    QuotePosition(t, post, rest, end);
  }

  lemma QuotePosition(t: string, post: string, s: string, end: int)
    requires s == t + "\"" + post && '\"' !in t
    requires end == -1 || (end >= 0 && OccursAt(s, "\"", end))
    requires forall j: nat :: (end == -1 || j < end) ==> !OccursAt(s, "\"", j)
    ensures end == |t|
  {
    assert s[|t|..|t| + 1] == "\"";
    assert OccursAt(s, "\"", |t|);
    assert end >= 0 ==> s[end] == s[end..end + 1][0] == '\"';
  }

  lemma TagFound(body: string, idx: nat, rest: string, end: nat)
    requires OccursAt(body, TagKey, idx) && forall j: nat :: j < idx ==> !OccursAt(body, TagKey, j)
    requires rest == body[idx + |TagKey|..] && OccursAt(rest, "\"", end)
    requires forall j: nat :: j < end ==> !OccursAt(rest, "\"", j)
    ensures end <= |rest| && Tagged(body, rest[..end])
  {
    var pre, tag, post := body[..idx], rest[..end], rest[end + 1..];
    assert rest == tag + "\"" + post;
    KeyFits(body, idx);
    assert pre + TagKey + (tag + "\"" + post) == pre + TagKey + tag + "\"" + post;
    forall i | 0 <= i < |tag| ensures tag[i] != '\"' {
      assert rest[i..i + 1] == [tag[i]];
      assert !OccursAt(rest, "\"", i);
    }
    assert TaggedBy(body, pre, tag, post);
  }
}
