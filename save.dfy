/**
 * The save record and its dictionary form (src/save.py). The dictionary is
 * a JSON object: a map from key to a JSON value.
 */
module Saves {
  import opened Wrappers

  datatype Save = Save(name: string, score: int, level: int, mapRows: seq<string>, createdAt: string)

  /** The JSON values a dictionary handed to `from_json` may hold. */
  datatype Json = JString(s: string) | JInt(i: int) | JBool(b: bool) | JNull | JList(items: seq<Json>)

  /** `from_json` fails on a missing key (KeyError) or on values of the wrong kind (a validation error naming them). */
  datatype SaveError = MissingKey(key: string) | Invalid(fields: seq<string>)

  /** The record's keys, in field order. */
  const SaveKeys: seq<string> := ["name", "score", "level", "map", "created_at"]

  function Rows(lines: seq<string>): (j: Json)
    ensures j.JList? && |j.items| == |lines|
    ensures forall i :: 0 <= i < |lines| ==> j.items[i] == JString(lines[i])
  {
    JList(seq(|lines|, i requires 0 <= i < |lines| => JString(lines[i])))
  }

  /** `to_json`: one entry per field, under exactly the five keys. */
  function ToJson(s: Save): (d: map<string, Json>)
    ensures d.Keys == set k | k in SaveKeys
    ensures d["name"] == JString(s.name) && d["score"] == JInt(s.score) && d["level"] == JInt(s.level)
    ensures d["created_at"] == JString(s.createdAt) && d["map"] == Rows(s.mapRows)
  {
    map["name" := JString(s.name), "score" := JInt(s.score), "level" := JInt(s.level),
        "map" := Rows(s.mapRows), "created_at" := JString(s.createdAt)]
  }

  predicate IsRows(j: Json)
  {
    j.JList? && forall i :: 0 <= i < |j.items| ==> j.items[i].JString?
  }

  function RowsOf(j: Json): (rows: seq<string>)
    requires IsRows(j)
    ensures |rows| == |j.items|
    ensures forall i :: 0 <= i < |rows| ==> j.items[i] == JString(rows[i])
  {
    seq(|j.items|, i requires 0 <= i < |j.items| => j.items[i].s)
  }

  /** The keys whose values have the wrong kind for their field, in field order. */
  function InvalidFields(d: map<string, Json>): (bad: seq<string>)
    requires forall k :: k in SaveKeys ==> k in d
    ensures forall k :: k in bad ==> k in SaveKeys
    ensures bad == [] <==>
      d["name"].JString? && d["score"].JInt? && d["level"].JInt? && IsRows(d["map"]) && d["created_at"].JString?
  {
    (if d["name"].JString? then [] else ["name"]) +
    (if d["score"].JInt? then [] else ["score"]) +
    (if d["level"].JInt? then [] else ["level"]) +
    (if IsRows(d["map"]) then [] else ["map"]) +
    (if d["created_at"].JString? then [] else ["created_at"])
  }

  /**
   * `from_json`: the five keys are read in field order, the first missing
   * one failing; then every value must have its field's kind.
   */
  function FromJson(d: map<string, Json>): (r: Result<Save, SaveError>)
    ensures r.Ok? <==> (forall k :: k in SaveKeys ==> k in d) && InvalidFields(d) == []
    ensures r.Err? && r.error.MissingKey? ==> r.error.key in SaveKeys && r.error.key !in d
  {
    if "name" !in d then Err(MissingKey("name"))
    else if "score" !in d then Err(MissingKey("score"))
    else if "level" !in d then Err(MissingKey("level"))
    else if "map" !in d then Err(MissingKey("map"))
    else if "created_at" !in d then Err(MissingKey("created_at"))
    else
      var bad := InvalidFields(d);
      if bad != [] then Err(Invalid(bad))
      else Ok(Save(d["name"].s, d["score"].i, d["level"].i, RowsOf(d["map"]), d["created_at"].s))
  }

  /** Every save, whatever its map (the empty one included), comes back from its dictionary unchanged. */
  lemma RoundTrip(s: Save)
    ensures FromJson(ToJson(s)) == Ok(s)
  {
    var d := ToJson(s);
    assert forall k :: k in SaveKeys ==> k in d;
    assert RowsOf(d["map"]) == s.mapRows;
  }

  /** Only the five keys are read: the save read back writes exactly those entries of the dictionary. */
  lemma FromJsonReadsOnlySaveKeys(d: map<string, Json>)
    requires FromJson(d).Ok?
    ensures ToJson(FromJson(d).value) == map k | k in d && k in SaveKeys :: d[k]
  {
    var s := FromJson(d).value;
    assert Rows(s.mapRows) == d["map"];
    assert ToJson(s).Keys == (map k | k in d && k in SaveKeys :: d[k]).Keys;
  }

  // Decimal text of integers, as `str(int)` writes it.

  function DigitChar(d: nat): char
    requires d < 10
  {
    "0123456789"[d]
  }

  function DigitValue(c: char): Option<nat>
  {
    if '0' <= c <= '9' then Some((c as int - '0' as int) as nat) else None
  }

  function ShowNat(n: nat): (s: string)
    ensures |s| > 0 && ' ' !in s && s[0] != '-'
    ensures forall i :: 0 <= i < |s| ==> DigitValue(s[i]).Some?
  {
    if n < 10 then [DigitChar(n)] else ShowNat(n / 10) + [DigitChar(n % 10)]
  }

  function ParseNat(s: string): Option<nat>
  {
    if s == [] then Some(0)
    else match (ParseNat(s[..|s| - 1]), DigitValue(s[|s| - 1]))
      case (Some(p), Some(d)) => Some(p * 10 + d)
      case _ => None
  }

  function ShowInt(n: int): (s: string)
    ensures |s| > 0 && ' ' !in s
  {
    if n < 0 then "-" + ShowNat(-n) else ShowNat(n)
  }

  function ParseInt(s: string): Option<int>
  {
    if s != [] && s[0] == '-' then
      match ParseNat(s[1..]) case Some(n) => Some(0 - (n as int)) case None => None
    else ParseNat(s)
  }

  lemma {:induction false} ParseShowNat(n: nat)
    ensures ParseNat(ShowNat(n)) == Some(n)
  {
    if n >= 10 {
      ParseShowNat(n / 10);
      var s := ShowNat(n);
      assert s[..|s| - 1] == ShowNat(n / 10);
    }
  }

  /** Decimal text reads back as the number it was written from. */
  lemma ParseShowInt(n: int)
    ensures ParseInt(ShowInt(n)) == Some(n)
  {
    if n < 0 {
      ParseShowNat(-n);
      assert ShowInt(n)[1..] == ShowNat(-n);
    } else {
      ParseShowNat(n);
    }
  }

  /** `pretty`: name, score and level joined by single spaces. */
  function Pretty(s: Save): string
  {
    s.name + " " + ShowInt(s.score) + " " + ShowInt(s.level)
  }

  /** The text after the last space of a string, and the text before it. */
  function LastWord(p: string): string
  {
    if p == [] then []
    else if p[|p| - 1] == ' ' then []
    else LastWord(p[..|p| - 1]) + [p[|p| - 1]]
  }

  function BeforeLastWord(p: string): string
  {
    if p == [] then []
    else if p[|p| - 1] == ' ' then p[..|p| - 1]
    else BeforeLastWord(p[..|p| - 1])
  }

  lemma {:induction false} SplitAtLastSpace(a: string, b: string)
    requires ' ' !in b
    ensures LastWord(a + " " + b) == b && BeforeLastWord(a + " " + b) == a
  {
    if b != [] {
      var p := a + " " + b;
      assert p[..|p| - 1] == a + " " + b[..|b| - 1];
      SplitAtLastSpace(a, b[..|b| - 1]);
    } else {
      assert (a + " " + b)[..|a + " " + b| - 1] == a;
    }
  }

  /**
   * The pretty line gives the record back: the last word is the level, the
   * one before it the score, and what precedes them the name (which may
   * itself contain spaces).
   */
  lemma PrettyRecoversFields(s: Save)
    ensures ParseInt(LastWord(Pretty(s))) == Some(s.level)
    ensures ParseInt(LastWord(BeforeLastWord(Pretty(s)))) == Some(s.score)
    ensures BeforeLastWord(BeforeLastWord(Pretty(s))) == s.name
  {
    SplitAtLastSpace(s.name + " " + ShowInt(s.score), ShowInt(s.level));
    SplitAtLastSpace(s.name, ShowInt(s.score));
    ParseShowInt(s.level);
    ParseShowInt(s.score);
  }
}
