/** The `fields` filter of `GET /api/status`: the query string is split at
    commas, each piece trimmed, empty pieces dropped, and only the requested
    names that are own fields of the clock state are returned. */
module StatusQuery {
  import opened Js

  /** A JSON value as the status endpoint returns it. `JTime` is the
      `{minutes, seconds}` object held in `initialTime`. */
  datatype Json =
    | JNum(n: int)
    | JBool(b: bool)
    | JNull
    | JString(s: string)
    | JTime(minutes: int, seconds: int)

  /** The characters `String.prototype.trim` removes: the ECMAScript
      WhiteSpace and LineTerminator code points. */
  predicate IsSpace(ch: char) {
    var u := ch as int;
    u == 0x09 || u == 0x0A || u == 0x0B || u == 0x0C || u == 0x0D || u == 0x20
    || u == 0xA0 || u == 0x1680 || (0x2000 <= u <= 0x200A) || u == 0x2028
    || u == 0x2029 || u == 0x202F || u == 0x205F || u == 0x3000 || u == 0xFEFF
  }

  /** Concatenation of `parts` with `sep` between neighbours; `Split`'s inverse. */
  function Join(parts: seq<string>, sep: char): string
    requires |parts| >= 1
  {
    if |parts| == 1 then parts[0] else parts[0] + [sep] + Join(parts[1..], sep)
  }

  /** `s.split(sep)` for a one-character separator: always at least one piece,
      an empty piece between adjacent separators and at either end. */
  function Split(s: string, sep: char): (parts: seq<string>)
    ensures |parts| >= 1
    ensures forall k :: 0 <= k < |parts| ==> sep !in parts[k]
    ensures Join(parts, sep) == s
    decreases |s|
  {
    if sep !in s then [s]
    else
      var i := IndexOf(s, sep);
      var rest := Split(s[i + 1..], sep);
      assert s == s[..i] + [sep] + s[i + 1..];
      [s[..i]] + rest
  }

  /** Leading white space removed. */
  function TrimStart(s: string): (r: string)
    ensures |r| <= |s| && r == s[|s| - |r|..]
    ensures forall k :: 0 <= k < |s| - |r| ==> IsSpace(s[k])
    ensures r != [] ==> !IsSpace(r[0])
  {
    if s != [] && IsSpace(s[0]) then TrimStart(s[1..]) else s
  }

  /** Trailing white space removed. */
  function TrimEnd(s: string): (r: string)
    ensures |r| <= |s| && r == s[..|r|]
    ensures forall k :: |r| <= k < |s| ==> IsSpace(s[k])
    ensures r != [] ==> !IsSpace(r[|r| - 1])
  {
    if s != [] && IsSpace(s[|s| - 1]) then TrimEnd(s[..|s| - 1]) else s
  }

  /** A non-empty name with no white space at either end. */
  predicate IsTrimmedName(f: string) {
    f != [] && !IsSpace(f[0]) && !IsSpace(f[|f| - 1])
  }

  /** `r` is the slice of `s` starting at `i`, with only white space before
      and after it. */
  predicate SpaceAround(s: string, r: string, i: int) {
    && 0 <= i <= |s| - |r| && r == s[i..i + |r|]
    && (forall k :: 0 <= k < i ==> IsSpace(s[k]))
    && (forall k :: i + |r| <= k < |s| ==> IsSpace(s[k]))
  }

  /** Leading white space dropped from `s` to give `t`, then trailing white
      space dropped from `t` to give `r`: `r` is a slice of `s` with only white
      space around it. */
  lemma TrimmedSlice(s: string, t: string, r: string)
    requires |t| <= |s| && t == s[|s| - |t|..]
    requires forall k :: 0 <= k < |s| - |t| ==> IsSpace(s[k])
    requires t != [] ==> !IsSpace(t[0])
    requires |r| <= |t| && r == t[..|r|]
    requires forall k :: |r| <= k < |t| ==> IsSpace(t[k])
    requires r != [] ==> !IsSpace(r[|r| - 1])
    ensures SpaceAround(s, r, |s| - |t|)
    ensures r == [] || IsTrimmedName(r)
    ensures ',' in r ==> ',' in s
  {
    var i := |s| - |t|;
    forall k | i + |r| <= k < |s|
      ensures IsSpace(s[k])
    {
      assert s[k] == t[k - i];
    }
    if r != [] {
      assert r[0] == t[0];
    }
    if ',' in r {
      var j :| 0 <= j < |r| && r[j] == ',';
      assert s[i + j] == ',';
    }
  }

  /** `s.trim()`: white space removed at both ends, nothing else changed. */
  function Trim(s: string): (r: string)
    ensures r == [] || IsTrimmedName(r)
    ensures |r| <= |s| && (',' in r ==> ',' in s)
    ensures exists i :: SpaceAround(s, r, i)
  {
    var t := TrimStart(s);
    var r := TrimEnd(t);
    TrimmedSlice(s, t, r);
    r
  }

  /** `parts.map(f => f.trim()).filter(Boolean)`. */
  function TrimAndDropEmpty(parts: seq<string>): (names: seq<string>)
    ensures |names| <= |parts|
    ensures forall n :: n in names ==> IsTrimmedName(n)
    ensures forall p :: p in parts && Trim(p) != [] ==> Trim(p) in names
    ensures (forall p :: p in parts ==> ',' !in p) ==> forall n :: n in names ==> ',' !in n
  {
    if parts == [] then []
    else
      var rest := TrimAndDropEmpty(parts[1..]);
      var t := Trim(parts[0]);
      if t == [] then rest else [t] + rest
  }

  /** The field names a `fields` query string asks for (server.js:381-384):
      non-empty, trimmed and free of commas, one for each non-blank piece. */
  function RequestedFields(fields: string): (names: seq<string>)
    ensures forall n :: n in names ==> IsTrimmedName(n) && ',' !in n
    ensures forall p :: p in Split(fields, ',') && Trim(p) != [] ==> Trim(p) in names
  {
    TrimAndDropEmpty(Split(fields, ','))
  }

  /** Two pieces around one separator split back into those two pieces. */
  lemma SplitPair(a: string, b: string, sep: char)
    requires sep !in a && sep !in b
    ensures Split(a + [sep] + b, sep) == [a, b]
  {
    var s := a + [sep] + b;
    assert s[|a|] == sep;
    var i := IndexOf(s, sep);
    assert forall k :: 0 <= k < |a| ==> s[k] == a[k];
    assert i == |a|;
    assert s[..i] == a && s[i + 1..] == b;
  }

  /** A name with no white space at either end is its own trimmed form. */
  lemma TrimKeepsName(f: string)
    requires IsTrimmedName(f)
    ensures Trim(f) == f
  {
  }

  /** Every requested name is the trimmed form of one of the pieces. */
  lemma {:induction false} NamesFromPieces(parts: seq<string>, n: string)
    requires n in TrimAndDropEmpty(parts)
    ensures exists k :: 0 <= k < |parts| && Trim(parts[k]) == n
    decreases |parts|
  {
    var rest := TrimAndDropEmpty(parts[1..]);
    if n in rest {
      NamesFromPieces(parts[1..], n);
      var k :| 0 <= k < |parts| - 1 && Trim(parts[1..][k]) == n;
      assert Trim(parts[k + 1]) == n;
    } else {
      assert Trim(parts[0]) == n;
    }
  }

  /** The names a `fields` query string asks for are exactly the non-empty
      trimmed pieces between its commas. */
  lemma RequestedFieldsExactly(fields: string, n: string)
    ensures n in RequestedFields(fields) <==> exists p :: p in Split(fields, ',') && Trim(p) == n && n != []
  {
    if n in RequestedFields(fields) {
      NamesFromPieces(Split(fields, ','), n);
    }
  }

  /** A query naming two fields asks for exactly those two, in order. */
  lemma RequestedPair(a: string, b: string)
    requires IsTrimmedName(a) && IsTrimmedName(b) && ',' !in a && ',' !in b
    ensures RequestedFields(a + [','] + b) == [a, b]
  {
    SplitPair(a, b, ',');
    TrimKeepsName(a);
    TrimKeepsName(b);
    assert [a, b][1..] == [b];
    assert TrimAndDropEmpty([b]) == [b];
  }

  /** The object built from the requested names that are own fields of the
      state, each with the state's value (server.js:385-390). */
  function Filtered(state: map<string, Json>, requested: seq<string>): (r: map<string, Json>)
    ensures forall f :: f in r <==> f in requested && f in state
    ensures forall f :: f in r ==> r[f] == state[f]
  {
    map f | f in requested && f in state :: state[f]
  }

  /** Asking for two names that are keys of `state` gives exactly those two,
      with the state's values. */
  lemma FilteredPair(state: map<string, Json>, a: string, b: string)
    requires IsTrimmedName(a) && IsTrimmedName(b) && ',' !in a && ',' !in b
    requires a in state && b in state
    ensures var r := Filtered(state, RequestedFields(a + [','] + b));
      (forall f :: f in r <==> f == a || f == b) && r[a] == state[a] && r[b] == state[b]
  {
    RequestedPair(a, b);
    FilteredTwo(state, a, b);
  }

  lemma FilteredTwo(state: map<string, Json>, a: string, b: string)
    requires a in state && b in state
    ensures var r := Filtered(state, [a, b]);
      (forall f :: f in r <==> f == a || f == b) && r[a] == state[a] && r[b] == state[b]
  {
  }

  /** The `requested.forEach` loop: copies each requested name that is a key
      of `state`, in order, into a fresh object. */
  method CopyRequested(state: map<string, Json>, requested: seq<string>) returns (filtered: map<string, Json>)
    ensures filtered == Filtered(state, requested)
  {
    filtered := map[];
    var i := 0;
    while i < |requested|
      invariant 0 <= i <= |requested|
      invariant forall f :: f in filtered <==> f in requested[..i] && f in state
      invariant forall f :: f in filtered ==> filtered[f] == state[f]
    {
      var f := requested[i];
      if f in state {
        filtered := filtered[f := state[f]];
      }
      assert requested[..i + 1] == requested[..i] + [f];
      i := i + 1;
    }
    assert requested[..i] == requested;
  }
}
