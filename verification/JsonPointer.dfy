/** JSON Pointer resolution (src/capabilities/tools/connector-registry.ts; sections 3 and 4 of RFC 6901). */
module JsonPointer {
  /** A value by its own fields; an array has its indices and "length". */
  datatype Value = Scalar(text: string) | Fields(own: map<string, Value>)

  datatype Fault = NoSlash | NotObject | Reserved | Missing
  datatype Result = Found(value: Value) | Failed(fault: Fault)

  const RESERVED: set<string> := {"__proto__", "constructor", "prototype"}

  // ---- Tokens

  function Escaped(c: char): string {
    if c == '~' then "~0" else if c == '/' then "~1" else [c]
  }

  /** Section 3: '~' is spelled "~0" and '/' is spelled "~1". */
  function Escape(t: string): string {
    if t == "" then "" else Escaped(t[0]) + Escape(t[1..])
  }

  /** `replace(/~d/g, c)` */
  function Replace(s: string, d: char, c: char): string {
    if s == "" then ""
    else if |s| >= 2 && s[0] == '~' && s[1] == d then [c] + Replace(s[2..], d, c)
    else [s[0]] + Replace(s[1..], d, c)
  }

  function Unescape(s: string): string {
    Replace(Replace(s, '1', '/'), '0', '~')
  }

  /** Only the '~' escaped. */
  function HalfEscape(t: string): string {
    if t == "" then "" else (if t[0] == '~' then "~0" else [t[0]]) + HalfEscape(t[1..])
  }

  lemma ReplacePair(d: char, c: char, rest: string)
    ensures Replace(['~', d] + rest, d, c) == [c] + Replace(rest, d, c)
  {
    assert (['~', d] + rest)[2..] == rest;
  }

  lemma ReplaceOther(x: char, rest: string, d: char, c: char)
    requires x != '~' || rest == "" || rest[0] != d
    ensures Replace([x] + rest, d, c) == [x] + Replace(rest, d, c)
  {
    assert ([x] + rest)[1..] == rest;
  }

  lemma {:induction false} FirstStep(t: string)
    ensures Replace(Escape(t), '1', '/') == HalfEscape(t)
  {
    if t != "" {
      var rest := Escape(t[1..]);
      FirstStep(t[1..]);
      if t[0] == '~' {
        assert "~0" + rest == ['~'] + (['0'] + rest);
        ReplaceOther('~', ['0'] + rest, '1', '/');
        ReplaceOther('0', rest, '1', '/');
      } else if t[0] == '/' {
        ReplacePair('1', '/', rest);
      } else {
        ReplaceOther(t[0], rest, '1', '/');
      }
    }
  }

  lemma {:induction false} SecondStep(t: string)
    ensures Replace(HalfEscape(t), '0', '~') == t
  {
    if t != "" {
      SecondStep(t[1..]);
      if t[0] == '~' {
        ReplacePair('0', '~', HalfEscape(t[1..]));
      } else {
        ReplaceOther(t[0], HalfEscape(t[1..]), '0', '~');
      }
    }
  }

  /** The two-step unescape undoes the escape on every token, whatever it contains. */
  lemma UnescapeUndoes(t: string)
    ensures Unescape(Escape(t)) == t
  {
    FirstStep(t);
    SecondStep(t);
  }

  /** The order of the two steps matters: the other way round, the token "~1" comes back as "/". */
  lemma OtherOrderIsWrong()
    ensures Replace(Replace(Escape("~1"), '0', '~'), '1', '/') == "/"
    ensures Unescape(Escape("~1")) == "~1"
  {
    UnescapeUndoes("~1");
    assert Escape("~1") == "~01" by {
      assert "~1"[1..] == "1" && "1"[1..] == "";
    }
    ReplacePair('0', '~', "1");
    ReplaceOther('1', "", '0', '~');
    assert Replace("~01", '0', '~') == "~1" by { assert ['~', '0'] + "1" == "~01"; assert "1" + "" == "1"; }
    ReplacePair('1', '/', "");
    assert ['~', '1'] + "" == "~1";
  }

  // ---- Pointers

  function Pointer(path: seq<string>): string {
    if path == [] then "" else "/" + (Escape(path[0]) + Pointer(path[1..]))
  }

  /** `split("/")`: the pieces between the slashes. */
  function Split(s: string): (parts: seq<string>)
    ensures parts != []
  {
    if s == "" then [""]
    else if s[0] == '/' then [""] + Split(s[1..])
    else
      var rest := Split(s[1..]);
      [[s[0]] + rest[0]] + rest[1..]
  }

  function Unescaped(parts: seq<string>): (r: seq<string>)
    ensures |r| == |parts| && forall i :: 0 <= i < |parts| ==> r[i] == Unescape(parts[i])
  {
    seq(|parts|, i requires 0 <= i < |parts| => Unescape(parts[i]))
  }

  lemma {:induction false} EscapeHasNoSlash(t: string)
    ensures '/' !in Escape(t)
  {
    if t != "" {
      EscapeHasNoSlash(t[1..]);
    }
  }

  lemma {:induction false} SplitWhole(s: string)
    requires '/' !in s
    ensures Split(s) == [s]
  {
    if s != "" {
      SplitWhole(s[1..]);
      assert [s[0]] + s[1..] == s;
    }
  }

  lemma {:induction false} SplitFirst(s: string, rest: string)
    requires '/' !in s
    ensures Split(s + "/" + rest) == [s] + Split(rest)
  {
    var all := s + "/" + rest;
    if s == "" {
      assert all[1..] == rest;
    } else {
      assert all[1..] == s[1..] + "/" + rest;
      SplitFirst(s[1..], rest);
      assert [s[0]] + s[1..] == s;
    }
  }

  function Escapes(path: seq<string>): (r: seq<string>)
    ensures |r| == |path| && forall i :: 0 <= i < |path| ==> r[i] == Escape(path[i])
  {
    seq(|path|, i requires 0 <= i < |path| => Escape(path[i]))
  }

  lemma {:induction false} SplitPointer(path: seq<string>)
    requires path != []
    ensures Pointer(path) != "" && Pointer(path)[0] == '/' && Split(Pointer(path)[1..]) == Escapes(path)
  {
    var token := Escape(path[0]);
    EscapeHasNoSlash(path[0]);
    assert Pointer(path)[1..] == token + Pointer(path[1..]);
    if |path| == 1 {
      SplitWhole(token);
      assert token + "" == token;
      EscapesCons(path);
    } else {
      SplitPointer(path[1..]);
      SplitHead(token, Pointer(path[1..]));
      EscapesCons(path);
    }
  }

  lemma {:induction false} EscapesCons(path: seq<string>)
    requires path != []
    ensures Escapes(path) == [Escape(path[0])] + Escapes(path[1..])
  {
  }

  lemma SplitHead(token: string, pointer: string)
    requires '/' !in token && pointer != "" && pointer[0] == '/'
    ensures Split(token + pointer) == [token] + Split(pointer[1..])
  {
    assert token + pointer == token + "/" + pointer[1..];
    SplitFirst(token, pointer[1..]);
  }

  // ---- Resolution

  /** The value at a path of names. */
  function At(v: Value, path: seq<string>): Result {
    if path == [] then Found(v)
    else if v.Scalar? then Failed(NotObject)
    else if path[0] in RESERVED then Failed(Reserved)
    else if path[0] !in v.own then Failed(Missing)
    else At(v.own[path[0]], path[1..])
  }

  /** Split, unescape, walk. */
  function Resolved(v: Value, pointer: string): Result {
    if pointer == "" then Found(v)
    else if pointer[0] != '/' then Failed(NoSlash)
    else At(v, Unescaped(Split(pointer[1..])))
  }

  /** The walk that updates `current`. */
  method Resolve(v: Value, pointer: string) returns (r: Result)
    ensures r == Resolved(v, pointer)
  {
    if pointer == "" {
      return Found(v);
    }
    if pointer[0] != '/' {
      return Failed(NoSlash);
    }
    var parts := Unescaped(Split(pointer[1..]));
    var current, i := v, 0;
    while i < |parts|
      invariant 0 <= i <= |parts|
      invariant At(v, parts) == At(current, parts[i..])
    {
      if current.Scalar? {
        return Failed(NotObject);
      }
      if parts[i] in RESERVED {
        return Failed(Reserved);
      }
      if parts[i] !in current.own {
        return Failed(Missing);
      }
      assert parts[i..][1..] == parts[i + 1..];
      current, i := current.own[parts[i]], i + 1;
    }
    return Found(current);
  }

  /** Escaping a path's names and joining them gives a pointer that resolves to the value at that path: on
      every path, with the same fault where there is no such value. */
  lemma ResolvesPath(v: Value, path: seq<string>)
    ensures Resolved(v, Pointer(path)) == At(v, path)
  {
    if path != [] {
      SplitPointer(path);
      forall i | 0 <= i < |path| { UnescapeUndoes(path[i]); }
      assert Unescaped(Escapes(path)) == path;
    }
  }

  /** A path of own fields that avoids the three reserved names is found; no other path is. */
  predicate Walkable(v: Value, path: seq<string>) {
    path == [] || (v.Fields? && path[0] !in RESERVED && path[0] in v.own && Walkable(v.own[path[0]], path[1..]))
  }

  lemma FoundExactly(v: Value, path: seq<string>)
    ensures Resolved(v, Pointer(path)).Found? <==> Walkable(v, path)
  {
    ResolvesPath(v, path);
    AtExactly(v, path);
  }

  lemma {:induction false} AtExactly(v: Value, path: seq<string>)
    ensures At(v, path).Found? <==> Walkable(v, path)
  {
    if path != [] && v.Fields? && path[0] in v.own {
      AtExactly(v.own[path[0]], path[1..]);
    }
  }

  /** Different paths have different pointers. */
  lemma PointersDiffer(p: seq<string>, q: seq<string>)
    requires Pointer(p) == Pointer(q)
    ensures p == q
  {
    if p != [] && q != [] {
      SplitPointer(p);
      SplitPointer(q);
      forall i | 0 <= i < |p| ensures p[i] == q[i] {
        assert Escapes(p)[i] == Escapes(q)[i];
        UnescapeUndoes(p[i]);
        UnescapeUndoes(q[i]);
      }
    } else if p != [] {
      SplitPointer(p);
    } else if q != [] {
      SplitPointer(q);
    }
  }
}
