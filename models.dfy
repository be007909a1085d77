/** The models a user can chat with, and how the names of the models the
    local engine reports (`family:tag`) become model records. The engine's
    list call is a parameter. */
module Models {
  import opened Wrappers
  import Text

  /** A model as the selector shows it. */
  datatype ModelType = ModelType(
    id: string,
    name: string,
    version: string,
    icon: string,
    isPinned: Option<bool>,
    features: seq<string>)

  /** `s.charAt(0).toUpperCase() + s.slice(1)`. */
  function Capitalize(s: string): (r: string)
    ensures |r| == |s|
    ensures |s| > 0 ==> r[0] == Text.UpperChar(s[0]) && r[1..] == s[1..]
  {
    if |s| == 0 then "" else Text.Upper(s[..1]) + s[1..]
  }

  /** The record for one reported model name: the id is the whole name; the
      part before the first colon, capitalised, is the name and, lower-cased,
      the icon; the part after it, up to any further colon, is the version. */
  function ToModelType(modelName: string): (m: ModelType)
    ensures m.id == modelName && m.isPinned.None? && m.features == []
  {
    var parts := Text.Split(modelName, ":");
    var name := parts[0];
    var version := if |parts| > 1 then parts[1] else "";
    ModelType(modelName, Capitalize(name), version, Text.Lower(name), None, [])
  }

  /** No colon. */
  predicate NoColon(s: string)
  {
    forall j :: 0 <= j < |s| ==> s[j] != ':'
  }

  lemma SplitNoColon(s: string)
    requires NoColon(s)
    ensures Text.Split(s, ":") == [s]
  {
    forall j | 0 <= j < |s|
      ensures !Text.OccursAt(s, ":", j)
    {
      Text.CharOccurs(s, ':', j);
    }
    Text.SplitNone(s, ":");
  }

  lemma SplitAtColon(a: string, b: string)
    requires NoColon(a)
    ensures Text.Split(a + ":" + b, ":") == [a] + Text.Split(b, ":")
  {
    forall j | 0 <= j < |a|
      ensures !Text.OccursAt(a + ":" + b, ":", j)
    {
      assert (a + ":" + b)[j] == a[j];
      Text.CharOccurs(a + ":" + b, ':', j);
    }
    Text.SplitCons(a, b, ":");
  }

  /** A name without a colon is its own family, with an empty version. */
  lemma UntaggedName(modelName: string)
    requires NoColon(modelName)
    ensures ToModelType(modelName)
         == ModelType(modelName, Capitalize(modelName), "", Text.Lower(modelName), None, [])
  {
    SplitNoColon(modelName);
  }

  /** A name `family:tag`, possibly followed by more `:`-separated parts:
      the family gives the name and icon, the tag the version, and the rest
      is dropped. */
  lemma TaggedName(family: string, tag: string, rest: string)
    requires NoColon(family) && NoColon(tag)
    requires rest == "" || rest[0] == ':'
    ensures var modelName := family + ":" + tag + rest;
            ToModelType(modelName) == ModelType(modelName, Capitalize(family), tag, Text.Lower(family), None, [])
  {
    assert family + ":" + tag + rest == family + ":" + (tag + rest);
    SplitAtColon(family, tag + rest);
    if rest == "" {
      assert tag + rest == tag;
      SplitNoColon(tag);
    } else {
      assert tag + rest == tag + ":" + rest[1..];
      SplitAtColon(tag, rest[1..]);
    }
  }

  /** `getInstalledModels`: one record per reported model, in the engine's
      order; nothing when the list call fails. */
  function GetInstalledModels(listed: Result<seq<string>, Thrown>): (r: seq<ModelType>)
    ensures listed.Err? ==> r == []
    ensures listed.Ok? ==>
      |r| == |listed.value|
      && forall i :: 0 <= i < |r| ==> r[i] == ToModelType(listed.value[i])
  {
    match listed
    case Err(_) => []
    case Ok(names) => seq(|names|, i requires 0 <= i < |names| => ToModelType(names[i]))
  }
}
