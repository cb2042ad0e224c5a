/** The JavaScript values the handler receives from `JSON.parse`, and the
    string operations it applies to them: `String(v)`, `Array.prototype.join`
    and, as the inverse of joining, splitting at the first occurrence of a
    separator (`indexOf`). */
module JsValues {

  import opened Options

  /** A value as `JSON.parse` can produce it. A number is carried as the text
      JavaScript prints for it, since number formatting is not modelled. */
  datatype Json =
    | JNull
    | JBool(b: bool)
    | JNumber(text: string)
    | JString(s: string)
    | JArray(elems: seq<Json>)
    | JObject(members: seq<(string, Json)>)

  /** `String(v)`: what `encodeURIComponent` and `Array.prototype.join` turn a
      value into, or `None` when the conversion throws. A parsed object
      inherits `Object.prototype.toString` and prints "[object Object]",
      unless it has its own "toString" member: that member shadows the
      inherited one and is not callable, and `valueOf` gives back the object
      itself, so the conversion throws a TypeError. An array converts through
      `join(",")`. */
  function ToJsString(v: Json): Option<string>
    decreases v, 2
  {
    match v
    case JNull => Some("null")
    case JBool(b) => Some(if b then "true" else "false")
    case JNumber(t) => Some(t)
    case JString(str) => Some(str)
    case JArray(xs) => Join(xs, ",")
    case JObject(ms) => if OwnsToString(ms) then None else Some("[object Object]")
  }

  /** The object has its own member named "toString". */
  predicate OwnsToString(ms: seq<(string, Json)>) {
    exists i :: 0 <= i < |ms| && ms[i].0 == "toString"
  }

  /** The string `Array.prototype.join` uses for one element: empty for null,
      its conversion otherwise. */
  function JoinPiece(v: Json): Option<string>
    decreases v, 3
  {
    if v.JNull? then Some("") else ToJsString(v)
  }

  /** `xs.join(sep)` on an array of parsed values; it throws when converting
      any element throws. */
  function Join(xs: seq<Json>, sep: string): Option<string>
    decreases JArray(xs), 0
  {
    match Collect(seq(|xs|, i requires 0 <= i < |xs| => JoinPiece(xs[i])))
    case None => None
    case Some(ss) => Some(JoinStrings(ss, sep))
  }

  /** All the strings of `ps` when none is missing. */
  function Collect(ps: seq<Option<string>>): (r: Option<seq<string>>)
    ensures r.Some? <==> forall i :: 0 <= i < |ps| ==> ps[i].Some?
    ensures r.Some? ==> |r.value| == |ps| && forall i :: 0 <= i < |ps| ==> r.value[i] == ps[i].value
    decreases |ps|
  {
    if |ps| == 0 then Some([])
    else if ps[0].None? then None
    else match Collect(ps[1..])
      case None => None
      case Some(rest) => Some([ps[0].value] + rest)
  }

  /** Joining strings with a separator between neighbours. */
  function JoinStrings(ss: seq<string>, sep: string): string
    decreases |ss|
  {
    if |ss| == 0 then ""
    else if |ss| == 1 then ss[0]
    else ss[0] + sep + JoinStrings(ss[1..], sep)
  }

  /** The values whose conversion throws: an object with its own "toString"
      member, and an array holding such a value at any depth. */
  predicate Unprintable(v: Json)
    decreases v
  {
    match v
    case JArray(xs) => exists i :: 0 <= i < |xs| && Unprintable(xs[i])
    case JObject(ms) => exists i :: 0 <= i < |ms| && ms[i].0 == "toString"
    case _ => false
  }

  /** `String(v)` throws exactly for the unprintable values. */
  lemma {:induction false} ToJsStringThrowsExactly(v: Json)
    ensures ToJsString(v).None? <==> Unprintable(v)
    decreases v
  {
    match v
    case JArray(xs) =>
      forall i | 0 <= i < |xs| {
        ToJsStringThrowsExactly(xs[i]);
      }
      PiecesThrowExactly(xs);
    case _ =>
  }

  lemma PiecesThrowExactly(xs: seq<Json>)
    requires forall i :: 0 <= i < |xs| ==> (ToJsString(xs[i]).None? <==> Unprintable(xs[i]))
    ensures Join(xs, ",").None? <==> exists i :: 0 <= i < |xs| && Unprintable(xs[i])
  {
    var ps := seq(|xs|, i requires 0 <= i < |xs| => JoinPiece(xs[i]));
    assert forall i :: 0 <= i < |xs| ==> (ps[i].None? <==> Unprintable(xs[i]));
  }

  /** Joining fails only when converting an element fails: a list whose
      elements all convert can be joined. */
  lemma JoinOfPrintable(xs: seq<Json>, sep: string)
    requires forall i :: 0 <= i < |xs| ==> ToJsString(xs[i]).Some?
    ensures Join(xs, sep).Some?
  {
    var ps := seq(|xs|, i requires 0 <= i < |xs| => JoinPiece(xs[i]));
    assert forall i :: 0 <= i < |xs| ==> ps[i].Some?;
  }

  /** Joining values that are all strings joins those strings. */
  lemma JoinOfStrings(xs: seq<Json>, sep: string)
    requires forall i :: 0 <= i < |xs| ==> xs[i].JString?
    ensures Join(xs, sep) == Some(JoinStrings(seq(|xs|, i requires 0 <= i < |xs| => xs[i].s), sep))
  {
    var ps := seq(|xs|, i requires 0 <= i < |xs| => JoinPiece(xs[i]));
    var strs := seq(|xs|, i requires 0 <= i < |xs| => xs[i].s);
    forall i | 0 <= i < |xs|
      ensures ps[i] == Some(strs[i])
    {
      assert xs[i] == JString(strs[i]);
      assert ToJsString(xs[i]) == Some(strs[i]);
      assert JoinPiece(xs[i]) == Some(strs[i]);
    }
    assert Collect(ps).value == strs;
  }

  /** A list of strings without commas converts to a string that splits back
      into those strings at ",". */
  lemma ArrayOfStringsRoundTrip(xs: seq<Json>)
    requires |xs| > 0
    requires forall i :: 0 <= i < |xs| ==> xs[i].JString? && Lacks(xs[i].s, ',')
    ensures ToJsString(JArray(xs)).Some?
    ensures Split(ToJsString(JArray(xs)).value, ",") == seq(|xs|, i requires 0 <= i < |xs| => xs[i].s)
  {
    JoinOfStrings(xs, ",");
    SplitJoin(seq(|xs|, i requires 0 <= i < |xs| => xs[i].s), ",");
  }

  /** `sep` occurs in `s` starting at position `k`. */
  predicate OccursAt(s: string, sep: string, k: nat) {
    k + |sep| <= |s| && s[k..k + |sep|] == sep
  }

  lemma OccursAtTail(s: string, sep: string, k: nat)
    requires |s| > 0
    ensures OccursAt(s, sep, k + 1) <==> OccursAt(s[1..], sep, k)
  {
    if k + 1 + |sep| <= |s| {
      assert s[k + 1..k + 1 + |sep|] == s[1..][k..k + |sep|];
    }
  }

  /** `s.indexOf(sep)`: the first position where `sep` occurs in `s`. */
  function IndexOf(s: string, sep: string): (r: Option<nat>)
    requires |sep| > 0
    ensures r.Some? ==> OccursAt(s, sep, r.value)
    ensures r.Some? ==> forall k: nat :: k < r.value ==> !OccursAt(s, sep, k)
    ensures r.None? ==> forall k: nat :: !OccursAt(s, sep, k)
    decreases |s|
  {
    if |s| < |sep| then None
    else if s[..|sep|] == sep then Some(0)
    else match IndexOf(s[1..], sep)
      case None =>
        assert forall k: nat :: !OccursAt(s, sep, k) by {
          forall k: nat ensures !OccursAt(s, sep, k) {
            if k == 0 { assert s[0..|sep|] == s[..|sep|]; } else { OccursAtTail(s, sep, k - 1); }
          }
        }
        None
      case Some(k) =>
        OccursAtTail(s, sep, k);
        assert forall j: nat :: j < k + 1 ==> !OccursAt(s, sep, j) by {
          forall j: nat | j < k + 1 ensures !OccursAt(s, sep, j) {
            if j == 0 { assert s[0..|sep|] == s[..|sep|]; } else { OccursAtTail(s, sep, j - 1); }
          }
        }
        Some(k + 1)
  }

  /** `s.split(sep)`: the pieces between the occurrences of `sep`, left to right. */
  function Split(s: string, sep: string): (pieces: seq<string>)
    requires |sep| > 0
    ensures |pieces| > 0
    decreases |s|
  {
    match IndexOf(s, sep)
    case None => [s]
    case Some(k) => [s[..k]] + Split(s[k + |sep|..], sep)
  }

  /** `c` does not occur in `t`. */
  predicate Lacks(t: string, c: char) {
    forall k :: 0 <= k < |t| ==> t[k] != c
  }

  /** A string that does not contain the first character of `sep` has no
      occurrence of `sep` before its end. */
  lemma {:induction false} IndexOfAfterPlainPrefix(t: string, sep: string, rest: string)
    requires |sep| > 0 && Lacks(t, sep[0])
    ensures IndexOf(t + sep + rest, sep) == Some(|t|)
  {
    var s := t + sep + rest;
    if |t| == 0 {
      assert s[..|sep|] == sep;
    } else {
      assert s[..|sep|][0] == t[0];
      assert s[1..] == t[1..] + sep + rest;
      IndexOfAfterPlainPrefix(t[1..], sep, rest);
    }
  }

  /** A string without the separator's first character contains no separator. */
  lemma {:induction false} IndexOfPlain(t: string, sep: string)
    requires |sep| > 0 && Lacks(t, sep[0])
    ensures IndexOf(t, sep) == None
  {
    if |t| >= |sep| {
      assert t[..|sep|][0] == t[0];
      IndexOfPlain(t[1..], sep);
    }
  }

  /** Splitting peels off a leading piece that lacks the separator. */
  lemma SplitStep(t: string, sep: string, rest: string)
    requires |sep| > 0 && Lacks(t, sep[0])
    ensures Split(t + sep + rest, sep) == [t] + Split(rest, sep)
  {
    IndexOfAfterPlainPrefix(t, sep, rest);
    var s := t + sep + rest;
    assert s[..|t|] == t;
    assert s[|t| + |sep|..] == rest;
  }

  /** Splitting a join gives back the joined strings, provided none of them
      contains the separator's first character. */
  lemma {:induction false} SplitJoin(ss: seq<string>, sep: string)
    requires |sep| > 0 && |ss| > 0
    requires forall i :: 0 <= i < |ss| ==> Lacks(ss[i], sep[0])
    ensures Split(JoinStrings(ss, sep), sep) == ss
    decreases |ss|
  {
    if |ss| == 1 {
      IndexOfPlain(ss[0], sep);
    } else {
      SplitJoin(ss[1..], sep);
      SplitStep(ss[0], sep, JoinStrings(ss[1..], sep));
      assert ss == [ss[0]] + ss[1..];
    }
  }
}
