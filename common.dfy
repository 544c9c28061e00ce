/**
 * Shared vocabulary of the point-of-sale model: optional values, handler
 * responses carrying an HTTP status code, the JavaScript notion of a
 * "truthy" string, and the string normalisations (trim, lower/upper case)
 * that the handlers and the schema setters apply.
 */
module Common {

  /** A JavaScript value that may be `null`/`undefined`. */
  datatype Option<+T> = None | Some(value: T) {
    function GetOr(default: T): T {
      match this
      case Some(v) => v
      case None => default
    }
  }

  /**
   * What a handler answers: a success status with a body, or an error
   * status with its message.
   */
  datatype Response<+T> = Ok(code: int, body: T) | Fail(code: int, message: string)

  /** Database identifiers. A document's identifier is its position in its collection. */
  type Id = nat

  /** A numeric request field: absent/`null`, or present and run through `parseFloat` (None = NaN). */
  datatype NumInput = Null | Num(parsed: Option<real>)

  /** JavaScript truthiness of an optional string: present and non-empty. */
  predicate Truthy(s: Option<string>) {
    s.Some? && s.value != ""
  }

  /** The whitespace `String.prototype.trim` removes (the ASCII part of it). */
  predicate IsSpace(c: char) {
    c == ' ' || c == '\t' || c == '\n' || c == '\r' || c == '\U{000B}' || c == '\U{000C}'
  }

  function TrimStart(s: string): (r: string)
    ensures |r| <= |s| && r == s[|s| - |r|..]
    ensures r == [] || !IsSpace(r[0])
    ensures forall i :: 0 <= i < |s| - |r| ==> IsSpace(s[i])
  {
    if s == [] || !IsSpace(s[0]) then s else TrimStart(s[1..])
  }

  function TrimEnd(s: string): (r: string)
    ensures |r| <= |s| && r == s[..|r|]
    ensures r == [] || !IsSpace(r[|r| - 1])
    ensures forall i :: |r| <= i < |s| ==> IsSpace(s[i])
  {
    if s == [] || !IsSpace(s[|s| - 1]) then s else TrimEnd(s[..|s| - 1])
  }

  /** `s.trim()`: the longest infix of `s` that neither starts nor ends with whitespace. */
  function Trim(s: string): (r: string)
    ensures |r| <= |s|
    ensures r == [] || (!IsSpace(r[0]) && !IsSpace(r[|r| - 1]))
  {
    TrimEnd(TrimStart(s))
  }

  /** `r` is `s[i..j]`, and everything of `s` before `i` and from `j` on is whitespace. */
  predicate TrimmedAt(s: string, r: string, i: int, j: int) {
    && 0 <= i <= j <= |s| && r == s[i..j]
    && (forall k :: 0 <= k < i ==> IsSpace(s[k]))
    && (forall k :: j <= k < |s| ==> IsSpace(s[k]))
  }

  /**
   * `s.trim()` is an infix of `s` with only whitespace before and after
   * it, so only whitespace is ever removed.
   */
  lemma TrimIsInfix(s: string)
    ensures exists i, j :: TrimmedAt(s, Trim(s), i, j)
  {
    var t := TrimStart(s);
    var r := TrimEnd(t);
    var i := |s| - |t|;
    SuffixPrefixSlice(s, t, r, i);
    assert Trim(s) == r;
    assert TrimmedAt(s, r, i, i + |r|);
  }

  /** A prefix `r` of the suffix `t` of `s` from `i` on is the slice of `s` at `i`, and the rest of `t` is what follows it in `s`. */
  lemma SuffixPrefixSlice(s: string, t: string, r: string, i: nat)
    requires i <= |s| && t == s[i..]
    requires |r| <= |t| && r == t[..|r|]
    requires forall k :: 0 <= k < i ==> IsSpace(s[k])
    requires forall k :: |r| <= k < |t| ==> IsSpace(t[k])
    ensures TrimmedAt(s, r, i, i + |r|)
  {
    forall k | i + |r| <= k < |s| ensures IsSpace(s[k]) {
      assert s[k] == t[k - i];
    }
  }

  /** A trimmed string is left alone by a second trim. */
  lemma TrimIdempotent(s: string)
    ensures Trim(Trim(s)) == Trim(s)
  {
    var t := Trim(s);
    if t != [] {
      assert TrimStart(t) == t;
      assert TrimEnd(t) == t;
    }
  }

  /** A whitespace-only (or empty) string trims to the empty string. */
  predicate IsBlank(s: string) {
    Trim(s) == ""
  }

  lemma {:induction false} BlankIffAllSpace(s: string)
    ensures IsBlank(s) <==> forall i :: 0 <= i < |s| ==> IsSpace(s[i])
  {
    var t := TrimStart(s);
    if forall i :: 0 <= i < |s| ==> IsSpace(s[i]) {
      assert t == [];
    } else {
      assert t != [];
      assert !IsSpace(t[0]);
    }
  }

  function LowerChar(c: char): char {
    if 'A' <= c <= 'Z' then (c as int + 32) as char else c
  }

  function UpperChar(c: char): char {
    if 'a' <= c <= 'z' then (c as int - 32) as char else c
  }

  /** `s.toLowerCase()` on the ASCII letters. */
  function ToLower(s: string): (r: string)
    ensures |r| == |s|
    ensures forall i :: 0 <= i < |s| ==> r[i] == LowerChar(s[i])
  {
    if s == [] then [] else [LowerChar(s[0])] + ToLower(s[1..])
  }

  /** `s.toUpperCase()` on the ASCII letters. */
  function ToUpper(s: string): (r: string)
    ensures |r| == |s|
    ensures forall i :: 0 <= i < |s| ==> r[i] == UpperChar(s[i])
  {
    if s == [] then [] else [UpperChar(s[0])] + ToUpper(s[1..])
  }

  /** The position of the first element of `s` satisfying `p`: what `findOne` returns when at most one document can match. */
  function FirstWhere<T>(s: seq<T>, p: T -> bool): (r: Option<nat>)
    ensures r.Some? ==> r.value < |s| && p(s[r.value]) && forall j :: 0 <= j < r.value ==> !p(s[j])
    ensures r.None? <==> forall i :: 0 <= i < |s| ==> !p(s[i])
  {
    if s == [] then None
    else if p(s[0]) then Some(0)
    else match FirstWhere(s[1..], p)
      case None => None
      case Some(k) => Some(k + 1)
  }

  /** Every element of `s` is different from every other. */
  predicate Distinct<T(==)>(s: seq<T>) {
    forall i, j :: 0 <= i < j < |s| ==> s[i] != s[j]
  }

  /**
   * The identifiers listed in `s` that name one of the first `count`
   * documents, each once: what `find({_id: {$in: s}})` returns.
   */
  function Found(s: seq<Id>, count: nat): (r: set<Id>)
    ensures forall x :: x in r <==> x in s && x < count
  {
    set x | x in s && x < count
  }

  /**
   * `find({_id: {$in: s}}).length === s.length` holds exactly when every
   * element of `s` is stored and none is listed twice.
   */
  lemma {:induction false} FoundCountMatches(s: seq<Id>, count: nat)
    ensures |Found(s, count)| == |s| <==> (forall x :: x in s ==> x < count) && Distinct(s)
  {
    if s == [] {
      assert Found(s, count) == {};
    } else {
      var rest := s[1..];
      FoundCountMatches(rest, count);
      var x := s[0];
      var fr := Found(rest, count);
      FoundBound(rest, count);
      if x < count && x !in rest {
        assert Found(s, count) == fr + {x};
        assert (forall y :: y in s ==> y < count) <==> (forall y :: y in rest ==> y < count) by {
          assert forall y :: y in s <==> y == x || y in rest;
        }
        assert Distinct(s) <==> Distinct(rest) by {
          if Distinct(rest) {
            forall i, j | 0 <= i < j < |s| ensures s[i] != s[j] {
              if i == 0 { assert s[j] == rest[j - 1]; } else { assert s[i] == rest[i - 1] && s[j] == rest[j - 1]; }
            }
          }
          if Distinct(s) {
            forall i, j | 0 <= i < j < |rest| ensures rest[i] != rest[j] {
              assert rest[i] == s[i + 1] && rest[j] == s[j + 1];
            }
          }
        }
      } else {
        assert Found(s, count) == fr by {
          forall y | y in Found(s, count) ensures y in fr {
            if y == x {
              assert x < count;
              assert x in rest;
            }
          }
        }
        if x in rest {
          var k :| 0 <= k < |rest| && rest[k] == x;
          assert s[0] == s[k + 1];
          assert !Distinct(s);
        } else {
          assert !(x < count) && x in s;
        }
      }
    }
  }

  lemma {:induction false} FoundBound(s: seq<Id>, count: nat)
    ensures |Found(s, count)| <= |s|
  {
    if s != [] {
      FoundBound(s[1..], count);
      var fr := Found(s[1..], count);
      if s[0] < count {
        assert Found(s, count) == fr + {s[0]};
      } else {
        assert Found(s, count) == fr;
      }
    }
  }
}
