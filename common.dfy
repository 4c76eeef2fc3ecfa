/** Shared vocabulary of the route handlers: optional values, the HTTP outcome of a
    handler, document ids, the case-insensitive text match used by `$regex` with
    option `'i'`, and the whitespace trimming of a Mongoose `trim: true` string path. */
module Common {

  datatype Option<+T> = None | Some(value: T) {
    function GetOr(default: T): T {
      match this
      case Some(v) => v
      case None => default
    }
  }

  /** The status code and body a route handler sends. */
  datatype Response<+T> =
    | Ok(body: T)                  // 200 with a JSON body
    | Created(body: T)             // 201
    | NoContent                    // 204, empty body
    | BadRequest(message: string)  // 400
    | NotFound(message: string)    // 404
    | ServerError(message: string) // 500

  type Id = string

  predicate IsHexDigit(c: char) {
    ('0' <= c <= '9') || ('a' <= c <= 'f') || ('A' <= c <= 'F')
  }

  /** An id the driver can cast to an ObjectId: 24 hexadecimal digits. */
  predicate IsObjectId(s: string) {
    |s| == 24 && forall i :: 0 <= i < |s| ==> IsHexDigit(s[i])
  }

  /** The ObjectId an id text denotes, written in lower case. The driver decodes the
      hexadecimal digits without regard to letter case, so two id texts name the
      same document exactly when their canonical forms agree. */
  function CanonicalId(id: Id): (r: Id)
    ensures |r| == |id|
    ensures forall i :: 0 <= i < |id| ==> r[i] == Fold(id[i])
  {
    FoldStr(id)
  }

  /** Folding the letter case neither makes nor unmakes an ObjectId. */
  lemma CanonicalIdKeepsObjectId(id: Id)
    ensures IsObjectId(CanonicalId(id)) <==> IsObjectId(id)
  {
    var r := CanonicalId(id);
    if IsObjectId(id) {
      forall i | 0 <= i < |r| ensures IsHexDigit(r[i]) {
        assert IsHexDigit(id[i]);
      }
    }
    if IsObjectId(r) {
      forall i | 0 <= i < |id| ensures IsHexDigit(id[i]) {
        assert IsHexDigit(Fold(id[i]));
      }
    }
  }

  /** A canonical id is its own canonical form. */
  lemma CanonicalIdIdempotent(id: Id)
    ensures CanonicalId(CanonicalId(id)) == CanonicalId(id)
  {
  }

  /** Id texts with the same canonical form are ObjectIds together or not at all. */
  lemma SameIdSameShape(a: Id, b: Id)
    requires CanonicalId(a) == CanonicalId(b)
    ensures IsObjectId(a) <==> IsObjectId(b)
  {
    CanonicalIdKeepsObjectId(a);
    CanonicalIdKeepsObjectId(b);
  }

  /** A request value is truthy in JavaScript when it is present and not the empty string. */
  predicate Truthy(v: Option<string>) {
    v.Some? && v.value != ""
  }

  // ---------------------------------------------------------------------------
  // Case-insensitive substring match (`{ $regex: q, $options: 'i' }`)
  // ---------------------------------------------------------------------------

  function Fold(c: char): char {
    if 'A' <= c <= 'Z' then (c as int + ('a' as int - 'A' as int)) as char else c
  }

  function FoldStr(s: string): (r: string)
    ensures |r| == |s|
    ensures forall i :: 0 <= i < |s| ==> r[i] == Fold(s[i])
  {
    if s == [] then [] else [Fold(s[0])] + FoldStr(s[1..])
  }

  predicate IsPrefix(p: string, t: string) {
    |p| <= |t| && t[..|p|] == p
  }

  /** `p` occurs somewhere in `t`. */
  predicate Contains(t: string, p: string)
    decreases |t|
  {
    IsPrefix(p, t) || (t != [] && Contains(t[1..], p))
  }

  /** `text` matches the pattern `pattern` taken literally, ignoring ASCII case. */
  predicate MatchesIgnoreCase(text: string, pattern: string) {
    Contains(FoldStr(text), FoldStr(pattern))
  }

  /** `p` occurs in `t` starting at position `i`. */
  predicate OccursAt(t: string, p: string, i: int) {
    0 <= i <= |t| - |p| && t[i..i + |p|] == p
  }

  /** Contains agrees with the positional definition of a substring occurrence. */
  lemma {:induction false} ContainsIffOccurs(t: string, p: string)
    ensures Contains(t, p) <==> exists i :: OccursAt(t, p, i)
  {
    if IsPrefix(p, t) {
      assert OccursAt(t, p, 0);
    } else if t == [] {
      assert |p| > 0;
    } else {
      ContainsIffOccurs(t[1..], p);
      if Contains(t[1..], p) {
        var i :| OccursAt(t[1..], p, i);
        assert t[i + 1..i + 1 + |p|] == t[1..][i..i + |p|];
        assert OccursAt(t, p, i + 1);
      }
      if exists i :: OccursAt(t, p, i) {
        var i :| OccursAt(t, p, i);
        assert t[1..][i - 1..i - 1 + |p|] == t[i..i + |p|];
        assert OccursAt(t[1..], p, i - 1);
      }
    }
  }

  /** The empty pattern matches every text, so an empty search constrains nothing. */
  lemma {:induction false} EmptyPatternMatches(text: string)
    ensures MatchesIgnoreCase(text, "")
  {
    assert FoldStr("") == "";
    assert IsPrefix("", FoldStr(text));
  }

  /** A text always matches itself, whatever the letter case of either. */
  lemma {:induction false} MatchesSelf(text: string)
    ensures MatchesIgnoreCase(text, text)
  {
    var f := FoldStr(text);
    assert f[..|f|] == f;
  }

  // ---------------------------------------------------------------------------
  // String.prototype.trim, applied by a `trim: true` schema path
  // ---------------------------------------------------------------------------

  /** ECMAScript WhiteSpace and LineTerminator code points. */
  predicate IsSpace(c: char) {
    c == ' ' || c == '\t' || c == '\n' || c == '\r' || c == '\U{000B}' || c == '\U{000C}'
    || c == '\U{00A0}' || c == '\U{1680}' || ('\U{2000}' <= c <= '\U{200A}')
    || c == '\U{2028}' || c == '\U{2029}' || c == '\U{202F}' || c == '\U{205F}'
    || c == '\U{3000}' || c == '\U{FEFF}'
  }

  /** The first index at or after `from` that does not hold whitespace (or |s|). */
  function ContentStart(s: string, from: nat): (i: nat)
    requires from <= |s|
    ensures from <= i <= |s|
    ensures forall k :: from <= k < i ==> IsSpace(s[k])
    ensures i < |s| ==> !IsSpace(s[i])
    decreases |s| - from
  {
    if from < |s| && IsSpace(s[from]) then ContentStart(s, from + 1) else from
  }

  /** The end of the content of s[lo..hi]: trailing whitespace is cut back to `lo`. */
  function ContentEnd(s: string, lo: nat, hi: nat): (j: nat)
    requires lo <= hi <= |s|
    ensures lo <= j <= hi
    ensures forall k :: j <= k < hi ==> IsSpace(s[k])
    ensures j > lo ==> !IsSpace(s[j - 1])
    decreases hi
  {
    if lo < hi && IsSpace(s[hi - 1]) then ContentEnd(s, lo, hi - 1) else hi
  }

  /** Removes leading and trailing whitespace, as `String.prototype.trim` does. */
  function Trim(s: string): (r: string)
    ensures |r| <= |s|
    ensures r == [] || (!IsSpace(r[0]) && !IsSpace(r[|r| - 1]))
  {
    var i := ContentStart(s, 0);
    s[i..ContentEnd(s, i, |s|)]
  }

  /** What Trim cuts away is whitespace, and only whitespace. */
  lemma TrimCutsOnlySpace(s: string)
    ensures var i := ContentStart(s, 0);
            var j := ContentEnd(s, i, |s|);
            && Trim(s) == s[i..j]
            && (forall k :: 0 <= k < i ==> IsSpace(s[k]))
            && (forall k :: j <= k < |s| ==> IsSpace(s[k]))
  {
  }

  /** A string without leading or trailing whitespace is its own trim. */
  lemma TrimOfTrimmed(s: string)
    requires s == [] || (!IsSpace(s[0]) && !IsSpace(s[|s| - 1]))
    ensures Trim(s) == s
  {
  }

  /** Trimming twice is trimming once: a stored, already trimmed name is left as it is. */
  lemma TrimIdempotent(s: string)
    ensures Trim(Trim(s)) == Trim(s)
  {
    TrimOfTrimmed(Trim(s));
  }

  /** A trimmed string is empty exactly when the input was nothing but whitespace. */
  lemma TrimEmptyIffBlank(s: string)
    ensures Trim(s) == [] <==> forall k :: 0 <= k < |s| ==> IsSpace(s[k])
  {
    var i := ContentStart(s, 0);
    if i < |s| {
      assert s[i..ContentEnd(s, i, |s|)] != [] by {
        assert ContentEnd(s, i, |s|) > i;
      }
    }
  }
}
