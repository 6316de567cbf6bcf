/**
 * The request router and response classifier of src/melange/httpserver.py: the `route` decorator,
 * the collection of routed methods in `dir()` order, first-match dispatch, first-value query
 * parsing, the extension-based MIME guess, the four file handlers' path resolution and the
 * 404 / 500 / 200 decision of `__call__`.
 */
module HttpServer {
  import opened Wrappers
  import opened Text

  /** `d.get(k, default)` on a string map (the WSGI environ, the parsed query). */
  function Get(m: map<string, string>, k: string, default: string): string
  {
    if k in m then m[k] else default
  }

  // ---------------------------------------------------------------------------------------------
  // Query strings: `urlparse.parse_qs` (Python 2.7, no blank values, not strict) and
  // `query_string_to_dict`

  /** The index of the first `c` in `s`. */
  function IndexOfChar(s: string, c: char): (i: nat)
    requires c in s
    ensures i < |s| && s[i] == c && c !in s[..i]
  {
    if s[0] == c then 0 else IndexOfChar(s[1..], c) + 1
  }

  lemma IndexOfCharAt(s: string, c: char, k: nat)
    requires k < |s| && s[k] == c && c !in s[..k]
    ensures IndexOfChar(s, c) == k
  {
  }

  /** `s.split(c)`: the pieces between occurrences of `c`, empty ones included. */
  function Split(s: string, c: char): (r: seq<string>)
    ensures |r| >= 1
    ensures forall k :: 0 <= k < |r| ==> c !in r[k]
    decreases |s|
  {
    if c !in s then [s]
    else
      var i := IndexOfChar(s, c);
      [s[..i]] + Split(s[i + 1..], c)
  }

  /** Splitting loses nothing: joining the pieces with the separator gives the string back. */
  lemma {:induction false} SplitJoin(s: string, c: char)
    ensures Join([c], Split(s, c)) == s
    decreases |s|
  {
    if c in s {
      var i := IndexOfChar(s, c);
      var rest := s[i + 1..];
      SplitJoin(rest, c);
      SplitAt(s, c);
      JoinCons([c], s[..i], Split(rest, c));
      assert s == s[..i] + [c] + rest;
    }
  }

  lemma SplitAt(s: string, c: char)
    requires c in s
    ensures Split(s, c) == [s[..IndexOfChar(s, c)]] + Split(s[IndexOfChar(s, c) + 1..], c)
  {
  }

  lemma JoinCons(sep: string, first: string, parts: seq<string>)
    requires parts != []
    ensures Join(sep, [first] + parts) == first + sep + Join(sep, parts)
  {
    assert ([first] + parts)[1..] == parts;
  }

  /** `[s2 for s1 in pieces for s2 in s1.split(';')]` */
  function SubPieces(pieces: seq<string>): seq<string>
  {
    if pieces == [] then [] else Split(pieces[0], ';') + SubPieces(pieces[1..])
  }

  /** The name-value candidates of a query string: split on `&`, then on `;`. */
  function Pieces(qs: string): (r: seq<string>)
    ensures forall k :: 0 <= k < |r| ==> '&' !in r[k] && ';' !in r[k]
  {
    var ps := Split(qs, '&');
    var r := SubPieces(ps);
    assert forall k :: 0 <= k < |r| ==> '&' !in r[k] && ';' !in r[k] by {
      SubPiecesClean(ps);
    }
    r
  }

  lemma {:induction false} SubPiecesClean(ps: seq<string>)
    requires forall k :: 0 <= k < |ps| ==> '&' !in ps[k]
    ensures forall k :: 0 <= k < |SubPieces(ps)| ==> '&' !in SubPieces(ps)[k] && ';' !in SubPieces(ps)[k]
  {
    if ps != [] {
      SubPiecesClean(ps[1..]);
      var head := Split(ps[0], ';');
      assert forall k :: 0 <= k < |head| ==> '&' !in head[k] by {
        SplitPiecesWithin(ps[0], ';', '&');
      }
    }
  }

  /** A character absent from `s` is absent from each of its pieces. */
  lemma {:induction false} SplitPiecesWithin(s: string, c: char, d: char)
    requires d !in s
    ensures forall k :: 0 <= k < |Split(s, c)| ==> d !in Split(s, c)[k]
    decreases |s|
  {
    if c in s {
      var i := IndexOfChar(s, c);
      assert s == s[..i] + [c] + s[i + 1..];
      SplitPiecesWithin(s[i + 1..], c, d);
    }
  }

  /** `s.replace('+', ' ')` */
  function PlusToSpace(s: string): (r: string)
    ensures |r| == |s| && '+' !in r
    ensures forall k :: 0 <= k < |s| ==> r[k] == (if s[k] == '+' then ' ' else s[k])
  {
    if s == [] then [] else [if s[0] == '+' then ' ' else s[0]] + PlusToSpace(s[1..])
  }

  predicate IsHexDigit(c: char)
  {
    '0' <= c <= '9' || 'a' <= c <= 'f' || 'A' <= c <= 'F'
  }

  function HexValue(c: char): (v: nat)
    requires IsHexDigit(c)
    ensures v < 16
  {
    if '0' <= c <= '9' then (c as int) - ('0' as int)
    else if 'a' <= c <= 'f' then (c as int) - ('a' as int) + 10
    else (c as int) - ('A' as int) + 10
  }

  /**
   * `urlparse.unquote`: each `%` followed by two hexadecimal digits becomes the character with
   * that code; any other `%` is kept.
   */
  function Unquote(s: string): (r: string)
    ensures |r| <= |s|
    ensures '%' !in s ==> r == s
  {
    if s == [] then []
    else if s[0] == '%' && |s| >= 3 && IsHexDigit(s[1]) && IsHexDigit(s[2]) then
      [(HexValue(s[1]) * 16 + HexValue(s[2])) as char] + Unquote(s[3..])
    else
      assert s == [s[0]] + s[1..];
      [s[0]] + Unquote(s[1..])
  }

  /** The pairs one candidate contributes: none when it is empty, has no `=`, or has an empty value. */
  function PairOf(nv: string): (r: seq<(string, string)>)
    ensures |r| <= 1
    ensures r != [] <==> '=' in nv && IndexOfChar(nv, '=') + 1 < |nv|
  {
    if nv == [] || '=' !in nv then []
    else
      var i := IndexOfChar(nv, '=');
      var name := nv[..i];
      var value := nv[i + 1..];
      if value == [] then [] else [(Unquote(PlusToSpace(name)), Unquote(PlusToSpace(value)))]
  }

  /** `urlparse.parse_qsl(qs)`: the name-value pairs in order. */
  function PairsOf(pieces: seq<string>): seq<(string, string)>
  {
    if pieces == [] then [] else PairOf(pieces[0]) + PairsOf(pieces[1..])
  }

  /** The values given for `name`, in order. */
  function Values(pairs: seq<(string, string)>, name: string): seq<string>
  {
    if pairs == [] then []
    else Values(pairs[..|pairs| - 1], name) + (if pairs[|pairs| - 1].0 == name then [pairs[|pairs| - 1].1] else [])
  }

  function LookupValues(m: map<string, seq<string>>, name: string): seq<string>
  {
    if name in m then m[name] else []
  }

  /** `urlparse.parse_qs`: each name to the list of its values, built pair by pair. */
  function Group(pairs: seq<(string, string)>): (m: map<string, seq<string>>)
    ensures forall k :: k in m ==> m[k] != []
  {
    if pairs == [] then map[]
    else
      var g := Group(pairs[..|pairs| - 1]);
      var (name, value) := pairs[|pairs| - 1];
      g[name := LookupValues(g, name) + [value]]
  }

  /** `parse_qs` lists for each name exactly the values given for it, in order. */
  lemma {:induction false} GroupValues(pairs: seq<(string, string)>, name: string)
    ensures LookupValues(Group(pairs), name) == Values(pairs, name)
    ensures name in Group(pairs) <==> exists i :: 0 <= i < |pairs| && pairs[i].0 == name
  {
    if pairs != [] {
      var p := pairs[..|pairs| - 1];
      GroupValues(p, name);
      if name in Group(pairs) && pairs[|pairs| - 1].0 != name {
        var i :| 0 <= i < |p| && p[i].0 == name;
        assert pairs[i] == p[i];
      }
      if name !in Group(pairs) {
        forall i | 0 <= i < |pairs| ensures pairs[i].0 != name {
          if i < |p| { assert pairs[i] == p[i]; }
        }
      }
    }
  }

  /** The first value given for a name is the value of the first pair with that name. */
  lemma {:induction false} FirstValue(pairs: seq<(string, string)>, name: string, i: nat)
    requires i < |pairs| && pairs[i].0 == name
    requires forall j :: 0 <= j < i ==> pairs[j].0 != name
    ensures Values(pairs, name) != [] && Values(pairs, name)[0] == pairs[i].1
  {
    var p := pairs[..|pairs| - 1];
    if i < |p| {
      assert forall j :: 0 <= j < i ==> p[j] == pairs[j];
      FirstValue(p, name, i);
    } else {
      NoValues(p, name);
    }
  }

  lemma {:induction false} NoValues(pairs: seq<(string, string)>, name: string)
    requires forall j :: 0 <= j < |pairs| ==> pairs[j].0 != name
    ensures Values(pairs, name) == []
  {
    if pairs != [] {
      var p := pairs[..|pairs| - 1];
      assert forall j :: 0 <= j < |p| ==> p[j] == pairs[j];
      NoValues(p, name);
    }
  }

  /** `query_string_to_dict`: every parsed name to the first of its values. */
  function QueryStringToDict(qs: string): map<string, string>
  {
    var g := Group(PairsOf(Pieces(qs)));
    map k | k in g :: g[k][0]
  }

  /**
   * A name is in the query dictionary exactly when some pair carries it, and then it maps to the
   * value of the first such pair; later repetitions are ignored.
   */
  lemma QueryFirstWins(qs: string, name: string)
    ensures var pairs := PairsOf(Pieces(qs));
            (name in QueryStringToDict(qs) <==> exists i :: 0 <= i < |pairs| && pairs[i].0 == name)
    ensures var pairs := PairsOf(Pieces(qs));
            forall i :: 0 <= i < |pairs| && pairs[i].0 == name && (forall j :: 0 <= j < i ==> pairs[j].0 != name) ==>
              name in QueryStringToDict(qs) && QueryStringToDict(qs)[name] == pairs[i].1
  {
    var pairs := PairsOf(Pieces(qs));
    GroupValues(pairs, name);
    forall i | 0 <= i < |pairs| && pairs[i].0 == name && (forall j :: 0 <= j < i ==> pairs[j].0 != name)
      ensures name in QueryStringToDict(qs) && QueryStringToDict(qs)[name] == pairs[i].1
    {
      FirstValue(pairs, name, i);
    }
  }

  lemma PiecesOfPlain(qs: string)
    requires '&' !in qs && ';' !in qs
    ensures Pieces(qs) == [qs]
  {
    var single: seq<string> := [qs];
    assert Split(qs, '&') == single && Split(qs, ';') == single;
    assert single[1..] == [];
    assert SubPieces(single[1..]) == [];
    assert SubPieces(single) == single + [];
  }

  lemma PlainUnchanged(s: string)
    requires '+' !in s && '%' !in s
    ensures Unquote(PlusToSpace(s)) == s
  {
  }

  lemma PairOfNameValue(name: string, value: string)
    requires '=' !in name && value != []
    ensures PairOf(name + "=" + value) == [(Unquote(PlusToSpace(name)), Unquote(PlusToSpace(value)))]
  {
    var nv := name + "=" + value;
    assert nv[..|name|] == name && nv[|name| + 1..] == value && nv[|name|] == '=';
    IndexOfCharAt(nv, '=', |name|);
  }

  lemma GroupSingle(name: string, value: string)
    ensures Group([(name, value)]).Keys == {name}
    ensures Group([(name, value)])[name] == [value]
  {
  }

  /**
   * A query string holding a single `name=value` pair, where neither contains a separator, a `+`
   * or a `%` and the value is not empty, parses to exactly that pair.
   */
  lemma SinglePairQuery(name: string, value: string)
    requires value != [] && '=' !in name
    requires '&' !in name && ';' !in name && '+' !in name && '%' !in name
    requires '&' !in value && ';' !in value && '+' !in value && '%' !in value
    ensures QueryStringToDict(name + "=" + value) == map[name := value]
  {
    var qs := name + "=" + value;
    assert '&' !in qs && ';' !in qs;
    PiecesOfPlain(qs);
    PairOfNameValue(name, value);
    PlainUnchanged(name);
    PlainUnchanged(value);
    var single: seq<string> := [qs];
    assert single[1..] == [];
    assert PairsOf(single) == [(name, value)] + [];
    GroupSingle(name, value);
    var d := QueryStringToDict(qs);
    assert d.Keys == {name} && d[name] == value;
  }

  // ---------------------------------------------------------------------------------------------
  // MIME types

  /** The extension table of `make_stupid_mimetype_guess`, in the order it is tried. */
  const MIME_TYPES: seq<(string, string)> := [
    ("html", "text/html"),
    ("css", "text/css"), ("js", "text/javascript"),
    ("png", "image/png"), ("svg", "application/svg"),
    ("ogg", "audio/ogg "), ("ttf", "application/octet-stream ")
  ]

  /** The type of the first entry of `table` whose extension ends the file name. */
  function GuessIn(table: seq<(string, string)>, filename: string): Option<string>
  {
    if table == [] then None
    else if EndsWith(filename, table[0].0) then Some(table[0].1)
    else GuessIn(table[1..], filename)
  }

  function Guess(filename: string): Option<string>
  {
    GuessIn(MIME_TYPES, filename)
  }

  /** The guess is the type of the first listed extension the name ends with, or none. */
  lemma {:induction false} GuessIsFirstMatch(table: seq<(string, string)>, filename: string)
    ensures GuessIn(table, filename).None? <==> forall i :: 0 <= i < |table| ==> !EndsWith(filename, table[i].0)
    ensures GuessIn(table, filename).Some? ==>
              exists i: nat :: i < |table| && EndsWith(filename, table[i].0) && GuessIn(table, filename) == Some(table[i].1) &&
                forall j :: 0 <= j < i ==> !EndsWith(filename, table[j].0)
  {
    if table != [] && !EndsWith(filename, table[0].0) {
      var rest := table[1..];
      GuessIsFirstMatch(rest, filename);
      assert forall i :: 1 <= i < |table| ==> table[i] == rest[i - 1];
      if GuessIn(rest, filename).Some? {
        var i: nat :| i < |rest| && EndsWith(filename, rest[i].0) && GuessIn(rest, filename) == Some(rest[i].1) &&
          forall j :: 0 <= j < i ==> !EndsWith(filename, rest[j].0);
        assert table[i + 1] == rest[i];
      }
    } else if table != [] {
      assert EndsWith(filename, table[0].0);
    }
  }

  /** The last two characters of a name of at least two. */
  function LastTwo(s: string): (char, char)
    requires |s| >= 2
  {
    (s[|s| - 2], s[|s| - 1])
  }

  /** The table entry an extension's last two characters identify. */
  function EntryOfEnding(t: (char, char)): int
  {
    match t
    case ('m', 'l') => 0
    case ('s', 's') => 1
    case ('j', 's') => 2
    case ('n', 'g') => 3
    case ('v', 'g') => 4
    case ('g', 'g') => 5
    case ('t', 'f') => 6
    case _ => -1
  }

  lemma EndingIdentifiesEntry(i: nat)
    requires i < |MIME_TYPES|
    ensures |MIME_TYPES[i].0| >= 2 && EntryOfEnding(LastTwo(MIME_TYPES[i].0)) == i
  {
  }

  lemma EndsWithLastTwo(s: string, e: string)
    requires |e| >= 2 && EndsWith(s, e)
    ensures |s| >= 2 && LastTwo(s) == LastTwo(e)
  {
  }

  /**
   * No two listed extensions share their last two characters, so a file name ends with at most one
   * of them: the order of the table never decides the guess.
   */
  lemma ExtensionsExclusive(filename: string, i: nat, j: nat)
    requires i < |MIME_TYPES| && j < |MIME_TYPES|
    requires EndsWith(filename, MIME_TYPES[i].0) && EndsWith(filename, MIME_TYPES[j].0)
    ensures i == j
  {
    EndingIdentifiesEntry(i);
    EndingIdentifiesEntry(j);
    EndsWithLastTwo(filename, MIME_TYPES[i].0);
    EndsWithLastTwo(filename, MIME_TYPES[j].0);
  }

  /** `make_stupid_mimetype_guess`: the table scan with its early return. */
  method MakeStupidMimetypeGuess(filename: string) returns (r: Option<string>)
    ensures r == Guess(filename)
    ensures r.Some? <==> exists i :: 0 <= i < |MIME_TYPES| && EndsWith(filename, MIME_TYPES[i].0)
  {
    GuessIsFirstMatch(MIME_TYPES, filename);
    for i := 0 to |MIME_TYPES|
      invariant GuessIn(MIME_TYPES[i..], filename) == Guess(filename)
    {
      var (extension, mimetype) := MIME_TYPES[i];
      if EndsWith(filename, extension) {
        return Some(mimetype);
      }
      assert MIME_TYPES[i..][1..] == MIME_TYPES[i + 1..];
    }
    return None;
  }

  // ---------------------------------------------------------------------------------------------
  // Routes and dispatch

  /**
   * A compiled route of the shape `<prefix>(?P<group>.*)`, the only shape the handlers use:
   * `re.match` anchors it at the start of the path, and `.` stops at a newline.
   */
  datatype Pattern = Pattern(prefix: string, group: string)

  /** The longest prefix of `s` without a newline: what `.*` captures. */
  function UpToNewline(s: string): (r: string)
    ensures StartsWith(s, r) && '\n' !in r
    ensures |r| < |s| ==> s[|r|] == '\n'
  {
    if '\n' in s then
      var i := IndexOfChar(s, '\n');
      assert s[..i][..i] == s[..i];
      s[..i]
    else s
  }

  /** `route.match(path)` followed by `groupdict()`. */
  function Match(p: Pattern, path: string): Option<map<string, string>>
  {
    if StartsWith(path, p.prefix) then Some(map[p.group := UpToNewline(path[|p.prefix|..])]) else None
  }

  /** What a route handler computes with its arguments. */
  datatype Handler = DataFiles | WidgetFiles | CommonFiles | ThemeFiles | Other

  /** An attribute found by `dir()`, with its `__bjoern_routes__` list when it has one. */
  datatype Attribute = Attribute(name: string, handler: Handler, routes: Option<seq<Pattern>>)

  function Routes(a: Attribute): seq<Pattern>
  {
    if a.routes.Some? then a.routes.value else []
  }

  /** `@route(url_regex)`: gives the function a route list if it has none and appends the pattern. */
  function Route(p: Pattern, a: Attribute): (r: Attribute)
    ensures r.name == a.name && r.handler == a.handler
    ensures r.routes.Some? && |Routes(r)| == |Routes(a)| + 1
    ensures Routes(r)[..|Routes(r)| - 1] == Routes(a) && Routes(r)[|Routes(r)| - 1] == p
  {
    a.(routes := Some(Routes(a) + [p]))
  }

  /** Stacked decorators apply bottom-up: the pattern written last is tried first. */
  lemma StackedRoutes(p1: Pattern, p2: Pattern, a: Attribute)
    requires a.routes.None?
    ensures Routes(Route(p1, Route(p2, a))) == [p2, p1]
  {
  }

  /** The attributes that carry routes, in order. */
  function Routed(attrs: seq<Attribute>): seq<Attribute>
  {
    if attrs == [] then []
    else Routed(attrs[..|attrs| - 1]) + (if attrs[|attrs| - 1].routes.Some? then [attrs[|attrs| - 1]] else [])
  }

  /** Python's string order: a proper prefix first, otherwise the first differing character decides. */
  predicate Below(a: string, b: string)
  {
    (|a| < |b| && b[..|a|] == a) ||
    exists k :: 0 <= k < |a| && k < |b| && a[..k] == b[..k] && a[k] < b[k]
  }

  predicate SortedByName(attrs: seq<Attribute>)
  {
    forall i, j :: 0 <= i < j < |attrs| ==> Below(attrs[i].name, attrs[j].name)
  }

  /**
   * `_get_routed` keeps exactly the attributes with routes, and keeps them in `dir()` order, so
   * the routed list is sorted by name whenever the attributes are.
   */
  lemma {:induction false} RoutedIsOrderedFilter(attrs: seq<Attribute>)
    ensures forall a :: a in Routed(attrs) <==> a in attrs && a.routes.Some?
    ensures SortedByName(attrs) ==> SortedByName(Routed(attrs))
  {
    if attrs != [] {
      var p := attrs[..|attrs| - 1];
      var last := attrs[|attrs| - 1];
      RoutedIsOrderedFilter(p);
      assert attrs == p + [last];
      if SortedByName(attrs) {
        assert SortedByName(p) by {
          forall i, j | 0 <= i < j < |p| ensures Below(p[i].name, p[j].name) {
            assert p[i] == attrs[i] && p[j] == attrs[j];
          }
        }
        var r := Routed(p);
        if last.routes.Some? {
          forall i | 0 <= i < |r| ensures Below(r[i].name, last.name) {
            assert r[i] in p;
            var k :| 0 <= k < |p| && p[k] == r[i];
            assert attrs[k] == r[i];
          }
        }
      }
    }
  }

  /** The first match among one function's routes. */
  function FirstRouteMatch(ps: seq<Pattern>, path: string): Option<map<string, string>>
  {
    if ps == [] then None
    else if Match(ps[0], path).Some? then Match(ps[0], path)
    else FirstRouteMatch(ps[1..], path)
  }

  /** `dispatch`: the first routed function, in order, with a route that matches, and the captures. */
  function FirstMatch(fs: seq<Attribute>, path: string): Option<(Attribute, map<string, string>)>
  {
    if fs == [] then None
    else if FirstRouteMatch(Routes(fs[0]), path).Some? then Some((fs[0], FirstRouteMatch(Routes(fs[0]), path).value))
    else FirstMatch(fs[1..], path)
  }

  /** Within one function, the first route that matches supplies the captures. */
  lemma {:induction false} FirstRouteMatchIsFirst(ps: seq<Pattern>, path: string)
    ensures FirstRouteMatch(ps, path).None? <==> forall j :: 0 <= j < |ps| ==> Match(ps[j], path).None?
    ensures FirstRouteMatch(ps, path).Some? ==>
              exists j: nat :: j < |ps| && Match(ps[j], path) == FirstRouteMatch(ps, path) &&
                forall j' :: 0 <= j' < j ==> Match(ps[j'], path).None?
  {
    if ps != [] && Match(ps[0], path).None? {
      var rest := ps[1..];
      FirstRouteMatchIsFirst(rest, path);
      assert forall j :: 1 <= j < |ps| ==> ps[j] == rest[j - 1];
      if FirstRouteMatch(rest, path).Some? {
        var j: nat :| j < |rest| && Match(rest[j], path) == FirstRouteMatch(rest, path) &&
          forall j' :: 0 <= j' < j ==> Match(rest[j'], path).None?;
        assert ps[j + 1] == rest[j];
      }
    }
  }

  /**
   * Dispatch finds nothing exactly when no route of any routed function matches; otherwise it
   * returns the earliest function with a matching route, and no earlier function has one.
   */
  lemma {:induction false} FirstMatchIsFirst(fs: seq<Attribute>, path: string)
    ensures FirstMatch(fs, path).None? <==> forall k :: 0 <= k < |fs| ==> FirstRouteMatch(Routes(fs[k]), path).None?
    ensures FirstMatch(fs, path).Some? ==>
              exists k: nat :: k < |fs| && fs[k] == FirstMatch(fs, path).value.0 &&
                FirstRouteMatch(Routes(fs[k]), path) == Some(FirstMatch(fs, path).value.1) &&
                forall k' :: 0 <= k' < k ==> FirstRouteMatch(Routes(fs[k']), path).None?
  {
    if fs != [] && FirstRouteMatch(Routes(fs[0]), path).None? {
      var rest := fs[1..];
      FirstMatchIsFirst(rest, path);
      assert forall k :: 1 <= k < |fs| ==> fs[k] == rest[k - 1];
      if FirstMatch(rest, path).Some? {
        var k: nat :| k < |rest| && rest[k] == FirstMatch(rest, path).value.0 &&
          FirstRouteMatch(Routes(rest[k]), path) == Some(FirstMatch(rest, path).value.1) &&
          forall k' :: 0 <= k' < k ==> FirstRouteMatch(Routes(rest[k']), path).None?;
        assert fs[k + 1] == rest[k];
      }
    }
  }

  // ---------------------------------------------------------------------------------------------
  // Path resolution

  /** `os.path.join(a, b)` (posixpath): an absolute `b` replaces `a`; otherwise one `/` between. */
  function PathJoin(a: string, b: string): string
  {
    if StartsWith(b, "/") then b
    else if a == "" || EndsWith(a, "/") then a + b
    else a + "/" + b
  }

  /** A relative name lands under the directory; an absolute one escapes it. */
  lemma PathJoinProperties(a: string, b: string)
    ensures StartsWith(b, "/") ==> PathJoin(a, b) == b
    ensures !StartsWith(b, "/") ==> StartsWith(PathJoin(a, b), a) && EndsWith(PathJoin(a, b), b)
    ensures !StartsWith(b, "/") ==> |PathJoin(a, b)| <= |a| + 1 + |b|
    ensures !StartsWith(b, "/") && a != "" && !EndsWith(a, "/") ==> |PathJoin(a, b)| > |a| && PathJoin(a, b)[|a|] == '/'
  {
  }

  datatype Theme = Theme(path: string)

  /** What the server reads from a registered widget. */
  datatype WidgetEntry = WidgetEntry(dataPath: string, skinPath: string, currentTheme: Theme)

  /**
   * The application state a request sees: the registered widgets by instance id, the application's
   * base path, the themes by id, the configured default theme, and which files exist with their sizes.
   */
  datatype Host = Host(
    widgets: map<string, WidgetEntry>,
    appPath: string,
    themes: map<string, Theme>,
    defaultTheme: string,
    files: map<string, nat>)

  /** `_get_widget_theme`: the instance's current theme for a non-empty `instance`, else the default. */
  function WidgetTheme(host: Host, get: map<string, string>): (r: Option<Theme>)
    ensures Get(get, "instance", "") != "" ==>
              (r.Some? <==> get["instance"] in host.widgets) &&
              (r.Some? ==> r.value == host.widgets[get["instance"]].currentTheme)
    ensures Get(get, "instance", "") == "" ==>
              (r.Some? <==> host.defaultTheme in host.themes) &&
              (r.Some? ==> r.value == host.themes[host.defaultTheme])
  {
    if "instance" in get && get["instance"] != "" then
      (if get["instance"] in host.widgets then Some(host.widgets[get["instance"]].currentTheme) else None)
    else if host.defaultTheme in host.themes then Some(host.themes[host.defaultTheme])
    else None
  }

  /** The directory a handler serves from, or none when it faults before opening anything. */
  function BaseDirectory(host: Host, h: Handler, get: map<string, string>): Option<string>
  {
    match h
    case DataFiles =>
      if "instance" in get && get["instance"] in host.widgets then Some(host.widgets[get["instance"]].dataPath) else None
    case WidgetFiles =>
      if "instance" in get && get["instance"] in host.widgets then Some(host.widgets[get["instance"]].skinPath) else None
    case CommonFiles => Some(PathJoin(host.appPath, "data/common"))
    case ThemeFiles =>
      (match WidgetTheme(host, get) case Some(t) => Some(t.path) case None => None)
    case Other => None
  }

  /** What a handler call produces: a fault, an open file, or some other value. */
  datatype Outcome = Raised | OpenFile(name: string, size: nat) | Plain(text: string)

  /** `open(path)`: the file when it exists, else an `IOError`. */
  function Open(host: Host, path: string): (r: Outcome)
    ensures r.OpenFile? <==> path in host.files
    ensures r.OpenFile? ==> r.name == path && r.size == host.files[path]
  {
    if path in host.files then OpenFile(path, host.files[path]) else Raised
  }

  /**
   * `func(GET, **kwargs)`: the handlers take exactly one keyword, `file`, and open it under their
   * base directory.
   */
  function Invoke(host: Host, a: Attribute, get: map<string, string>, kwargs: map<string, string>): Outcome
  {
    if kwargs.Keys != {"file"} then Raised
    else
      match BaseDirectory(host, a.handler, get)
      case None => Raised
      case Some(dir) => Open(host, PathJoin(dir, kwargs["file"]))
  }

  /**
   * Every successful handler call opens the captured file under its base directory: a data or skin
   * file of the named instance, a common file of the application, or a theme file.
   */
  lemma InvokeResolves(host: Host, a: Attribute, get: map<string, string>, file: string)
    ensures var o := Invoke(host, a, get, map["file" := file]);
            o.OpenFile? <==> BaseDirectory(host, a.handler, get).Some? &&
                             PathJoin(BaseDirectory(host, a.handler, get).value, file) in host.files
    ensures var o := Invoke(host, a, get, map["file" := file]);
            o.OpenFile? ==> o.name == PathJoin(BaseDirectory(host, a.handler, get).value, file)
    ensures a.handler.DataFiles? || a.handler.WidgetFiles? ==>
              (BaseDirectory(host, a.handler, get).Some? <==> "instance" in get && get["instance"] in host.widgets)
    ensures !Invoke(host, a, get, map["file" := file]).Plain?
  {
  }

  // ---------------------------------------------------------------------------------------------
  // Responses

  datatype Body = Text(text: string) | FileBody(name: string, size: nat)

  datatype Response = Response(status: string, headers: seq<(string, string)>, body: Body)

  const NOT_FOUND_STATUS: string := "404 Not Found"
  const ERROR_STATUS: string := "500 Python Error :("
  const OK_STATUS: string := "200 Alles in Butter"

  /** The value of the first header with that name. */
  function HeaderValue(headers: seq<(string, string)>, name: string): Option<string>
  {
    if headers == [] then None
    else if headers[0].0 == name then Some(headers[0].1)
    else HeaderValue(headers[1..], name)
  }

  function BodyLength(b: Body): nat
  {
    match b
    case Text(t) => |t|
    case FileBody(_, size) => size
  }

  predicate AllDigits(s: string)
  {
    forall i :: 0 <= i < |s| ==> IsDigit(s[i])
  }

  /** A `Content-Length` header, when there is one, is a decimal number equal to the body's length. */
  predicate ContentLengthHonest(r: Response)
  {
    match HeaderValue(r.headers, "Content-Length")
    case None => true
    case Some(v) => AllDigits(v) && DecimalValue(v) == BodyLength(r.body)
  }

  /** The 404 response as written: `Content-Length: 13`, with the nine-byte body `Not Found`. */
  function NotFoundAsWritten(): Response
  {
    Response(NOT_FOUND_STATUS, [("Content-Length", "13")], Text("Not Found"))
  }

  /** The 404 response with the length of its own body. */
  function NotFound(): (r: Response)
    ensures r.status == NOT_FOUND_STATUS && r.body == NotFoundAsWritten().body
    ensures ContentLengthHonest(r)
  {
    Response(NOT_FOUND_STATUS, [("Content-Length", "9")], Text("Not Found"))
  }

  /** The announced length of the 404 body is four bytes more than the body has. */
  lemma NotFoundLengthMismatch()
    ensures !ContentLengthHonest(NotFoundAsWritten())
    ensures BodyLength(NotFoundAsWritten().body) == 9
    ensures HeaderValue(NotFoundAsWritten().headers, "Content-Length") == Some("13")
  {
  }

  function ServerError(): (r: Response)
    ensures r.status == ERROR_STATUS
    ensures ContentLengthHonest(r)
  {
    assert DecimalValue("21") == 21 by {
      assert "21"[..1] == "2";
      assert "2"[..0] == "";
    }
    Response(ERROR_STATUS, [("Content-Length", "21")], Text("Internal Server Error"))
  }

  /**
   * The response to a handler's outcome: 500 for a fault; otherwise 200, where a file gets its size
   * as `Content-Length` and a `Content-Type` exactly when the MIME guess has one, and any other value
   * gets no headers.
   */
  function Respond(o: Outcome): (r: Response)
    ensures r.status == (if o.Raised? then ERROR_STATUS else OK_STATUS)
    ensures o.OpenFile? ==>
              r.body == FileBody(o.name, o.size) &&
              HeaderValue(r.headers, "Content-Length") == Some(DecimalString(o.size)) &&
              HeaderValue(r.headers, "Content-Type") == Guess(o.name) &&
              |r.headers| == (if Guess(o.name).Some? then 2 else 1)
    ensures o.Plain? ==> r.headers == [] && r.body == Text(o.text)
    ensures ContentLengthHonest(r)
  {
    match o
    case Raised => ServerError()
    case OpenFile(name, size) =>
      DecimalRoundTrip(size);
      var length := [("Content-Length", DecimalString(size))];
      var headers := if Guess(name).Some? then length + [("Content-Type", Guess(name).value)] else length;
      assert headers[1..] == (if Guess(name).Some? then [("Content-Type", Guess(name).value)] else []);
      Response(OK_STATUS, headers, FileBody(name, size))
    case Plain(text) => Response(OK_STATUS, [], Text(text))
  }

  function PathInfo(environ: map<string, string>): string
  {
    Get(environ, "PATH_INFO", "")
  }

  function Params(environ: map<string, string>): map<string, string>
  {
    QueryStringToDict(Get(environ, "QUERY_STRING", ""))
  }

  /**
   * `__call__` with the corrected 404: no route gives 404 without calling any handler, a handler
   * fault gives 500, and anything else 200; every announced `Content-Length` is right.
   */
  function Serve(host: Host, routed: seq<Attribute>, environ: map<string, string>): (r: Response)
    ensures r.status == NOT_FOUND_STATUS <==> FirstMatch(routed, PathInfo(environ)).None?
    ensures r.status == ERROR_STATUS <==>
              FirstMatch(routed, PathInfo(environ)).Some? &&
              Invoke(host, FirstMatch(routed, PathInfo(environ)).value.0, Params(environ),
                     FirstMatch(routed, PathInfo(environ)).value.1).Raised?
    ensures ContentLengthHonest(r)
  {
    match FirstMatch(routed, PathInfo(environ))
    case None => NotFound()
    case Some((func, kwargs)) => Respond(Invoke(host, func, Params(environ), kwargs))
  }

  /** `__call__` as written, with the 404 response of the source. */
  function ServeAsWritten(host: Host, routed: seq<Attribute>, environ: map<string, string>): (r: Response)
    ensures r.status == NOT_FOUND_STATUS <==> FirstMatch(routed, PathInfo(environ)).None?
    ensures FirstMatch(routed, PathInfo(environ)).Some? ==> ContentLengthHonest(r)
    ensures FirstMatch(routed, PathInfo(environ)).None? ==> !ContentLengthHonest(r)
  {
    NotFoundLengthMismatch();
    match FirstMatch(routed, PathInfo(environ))
    case None => NotFoundAsWritten()
    case Some((func, kwargs)) => Respond(Invoke(host, func, Params(environ), kwargs))
  }

  /** The two differ only in the announced length of the 404 body, which as written is wrong. */
  lemma AsWrittenDiffersOnlyOn404(host: Host, routed: seq<Attribute>, environ: map<string, string>)
    ensures FirstMatch(routed, PathInfo(environ)).Some? ==> ServeAsWritten(host, routed, environ) == Serve(host, routed, environ)
    ensures FirstMatch(routed, PathInfo(environ)).None? ==>
              ServeAsWritten(host, routed, environ).body == Serve(host, routed, environ).body &&
              !ContentLengthHonest(ServeAsWritten(host, routed, environ))
  {
  }

  // ---------------------------------------------------------------------------------------------
  // The framework object and the melange server's routes

  /** `SmallWebFramework`: the routed methods, collected once, and the per-request entry points. */
  class Framework {
    var routedMethods: seq<Attribute>

    predicate Valid()
      reads this
    {
      forall i :: 0 <= i < |routedMethods| ==> routedMethods[i].routes.Some?
    }

    /** `__init__`: `routed_methods` is `_get_routed()` over the attributes in `dir()` order. */
    constructor (attributes: seq<Attribute>)
      ensures routedMethods == Routed(attributes)
      ensures Valid()
    {
      var routed := GetRouted(attributes);
      routedMethods := routed;
    }

    /** `_get_routed` */
    static method GetRouted(attributes: seq<Attribute>) returns (routed: seq<Attribute>)
      ensures routed == Routed(attributes)
      ensures forall i :: 0 <= i < |routed| ==> routed[i].routes.Some?
    {
      routed := [];
      for i := 0 to |attributes|
        invariant routed == Routed(attributes[..i])
        invariant forall k :: 0 <= k < |routed| ==> routed[k].routes.Some?
      {
        assert attributes[..i + 1][..i] == attributes[..i];
        var func := attributes[i];
        if func.routes.Some? {
          routed := routed + [func];
        }
      }
      assert attributes[..|attributes|] == attributes;
    }

    /** `dispatch`: the nested scan over routed functions and their routes, with early return. */
    method Dispatch(environ: map<string, string>) returns (r: Option<(Attribute, map<string, string>)>)
      requires Valid()
      ensures r == FirstMatch(routedMethods, PathInfo(environ))
    {
      var path := Get(environ, "PATH_INFO", "");
      for i := 0 to |routedMethods|
        invariant FirstMatch(routedMethods[i..], path) == FirstMatch(routedMethods, path)
      {
        var func := routedMethods[i];
        var routes := func.routes.value;
        for j := 0 to |routes|
          invariant FirstRouteMatch(routes[j..], path) == FirstRouteMatch(routes, path)
        {
          var m := Match(routes[j], path);
          if m.Some? {
            return Some((func, m.value));
          }
          assert routes[j..][1..] == routes[j + 1..];
        }
        assert routedMethods[i..][1..] == routedMethods[i + 1..];
      }
      return None;
    }

    /**
     * `__call__` with the corrected 404: parse the query, dispatch, call the handler and classify the
     * outcome. It answers as the code as written does, except that an unrouted path gets the 404 with
     * the length of its own body.
     */
    method Call(host: Host, environ: map<string, string>) returns (response: Response)
      requires Valid()
      ensures response == Serve(host, routedMethods, environ)
      ensures FirstMatch(routedMethods, PathInfo(environ)).Some? ==> response == ServeAsWritten(host, routedMethods, environ)
      ensures FirstMatch(routedMethods, PathInfo(environ)).None? ==>
                response.body == ServeAsWritten(host, routedMethods, environ).body
    {
      AsWrittenDiffersOnlyOn404(host, routedMethods, environ);
      var get := QueryStringToDict(Get(environ, "QUERY_STRING", ""));
      var found := Dispatch(environ);
      if found.None? {
        return NotFound();
      }
      var (func, kwargs) := found.value;
      var outcome := Invoke(host, func, get, kwargs);
      response := Respond(outcome);
    }
  }

  const DATA_ROUTE: Pattern := Pattern("/data/", "file")
  const WIDGET_ROUTE: Pattern := Pattern("/widget/", "file")
  const COMMON_ROUTE: Pattern := Pattern("/common/", "file")
  const THEME_ROUTE: Pattern := Pattern("/theme/", "file")

  /** The methods of `HttpServer` and `SmallWebFramework` in `dir()` order, the four handlers decorated. */
  const SERVER_ATTRIBUTES: seq<Attribute> := [
    Attribute("__call__", Other, None),
    Attribute("__init__", Other, None),
    Attribute("_get_routed", Other, None),
    Attribute("_get_widget_theme", Other, None),
    Route(COMMON_ROUTE, Attribute("common_files", CommonFiles, None)),
    Route(DATA_ROUTE, Attribute("data_files", DataFiles, None)),
    Attribute("dispatch", Other, None),
    Attribute("run", Other, None),
    Route(THEME_ROUTE, Attribute("theme_files", ThemeFiles, None)),
    Route(WIDGET_ROUTE, Attribute("widget_files", WidgetFiles, None))
  ]

  const SERVER_ROUTED: seq<Attribute> := [
    Attribute("common_files", CommonFiles, Some([COMMON_ROUTE])),
    Attribute("data_files", DataFiles, Some([DATA_ROUTE])),
    Attribute("theme_files", ThemeFiles, Some([THEME_ROUTE])),
    Attribute("widget_files", WidgetFiles, Some([WIDGET_ROUTE]))
  ]

  lemma RoutedSnoc(attrs: seq<Attribute>, k: nat)
    requires k < |attrs|
    ensures Routed(attrs[..k + 1]) == Routed(attrs[..k]) + (if attrs[k].routes.Some? then [attrs[k]] else [])
  {
    assert attrs[..k + 1][..k] == attrs[..k];
  }

  /** The melange server routes the common, data, theme and widget handlers, in that order. */
  lemma ServerRouted()
    ensures Routed(SERVER_ATTRIBUTES) == SERVER_ROUTED
  {
    var a := SERVER_ATTRIBUTES;
    assert a[..0] == [];
    RoutedSnoc(a, 0);
    RoutedSnoc(a, 1);
    RoutedSnoc(a, 2);
    RoutedSnoc(a, 3);
    RoutedSnoc(a, 4);
    RoutedSnoc(a, 5);
    RoutedSnoc(a, 6);
    RoutedSnoc(a, 7);
    RoutedSnoc(a, 8);
    RoutedSnoc(a, 9);
    assert a[..10] == a;
  }

  lemma PrefixChar(path: string, prefix: string, k: nat)
    requires StartsWith(path, prefix) && k < |prefix|
    ensures path[k] == prefix[k]
  {
  }

  lemma SingleRoute(p: Pattern, path: string)
    ensures FirstRouteMatch([p], path) == Match(p, path)
  {
  }

  /** A path is served by the handler whose prefix it starts with; the four prefixes never overlap. */
  lemma ServerDispatch(path: string)
    ensures StartsWith(path, "/common/") ==> FirstMatch(SERVER_ROUTED, path) == Some((SERVER_ROUTED[0], map["file" := UpToNewline(path[8..])]))
    ensures StartsWith(path, "/data/") ==> FirstMatch(SERVER_ROUTED, path) == Some((SERVER_ROUTED[1], map["file" := UpToNewline(path[6..])]))
    ensures StartsWith(path, "/theme/") ==> FirstMatch(SERVER_ROUTED, path) == Some((SERVER_ROUTED[2], map["file" := UpToNewline(path[7..])]))
    ensures StartsWith(path, "/widget/") ==> FirstMatch(SERVER_ROUTED, path) == Some((SERVER_ROUTED[3], map["file" := UpToNewline(path[8..])]))
    ensures FirstMatch(SERVER_ROUTED, path).None? <==>
              !StartsWith(path, "/common/") && !StartsWith(path, "/data/") && !StartsWith(path, "/theme/") && !StartsWith(path, "/widget/")
  {
    var s := SERVER_ROUTED;
    SingleRoute(COMMON_ROUTE, path);
    SingleRoute(DATA_ROUTE, path);
    SingleRoute(THEME_ROUTE, path);
    SingleRoute(WIDGET_ROUTE, path);
    assert Routes(s[0]) == [COMMON_ROUTE] && Routes(s[1]) == [DATA_ROUTE];
    assert Routes(s[2]) == [THEME_ROUTE] && Routes(s[3]) == [WIDGET_ROUTE];
    assert s[1..][0] == s[1] && s[1..][1..] == s[2..] && s[2..][0] == s[2];
    assert s[2..][1..] == s[3..] && s[3..][0] == s[3] && s[3..][1..] == [];
    var m0 := Match(COMMON_ROUTE, path);
    var m1 := Match(DATA_ROUTE, path);
    var m2 := Match(THEME_ROUTE, path);
    var m3 := Match(WIDGET_ROUTE, path);
    assert FirstMatch(s[3..], path) == if m3.Some? then Some((s[3], m3.value)) else None;
    assert FirstMatch(s[2..], path) == if m2.Some? then Some((s[2], m2.value)) else FirstMatch(s[3..], path);
    assert FirstMatch(s[1..], path) == if m1.Some? then Some((s[1], m1.value)) else FirstMatch(s[2..], path);
    assert FirstMatch(s, path) == if m0.Some? then Some((s[0], m0.value)) else FirstMatch(s[1..], path);
    if StartsWith(path, "/common/") { PrefixChar(path, "/common/", 1); }
    if StartsWith(path, "/data/") { PrefixChar(path, "/data/", 1); }
    if StartsWith(path, "/theme/") { PrefixChar(path, "/theme/", 1); }
    if StartsWith(path, "/widget/") { PrefixChar(path, "/widget/", 1); }
  }

  /**
   * A data request for a registered instance is answered with the file under that instance's data
   * directory when it exists (200 with its size as `Content-Length`), and with 500 when it does not;
   * a request naming no instance, or one that is not registered, gets 500 too.
   */
  lemma DataRequest(host: Host, environ: map<string, string>, file: string)
    requires PathInfo(environ) == "/data/" + file && '\n' !in file
    ensures var r := Serve(host, SERVER_ROUTED, environ);
            var get := Params(environ);
            if "instance" in get && get["instance"] in host.widgets then
              var path := PathJoin(host.widgets[get["instance"]].dataPath, file);
              if path in host.files then
                r.status == OK_STATUS && r.body == FileBody(path, host.files[path]) &&
                HeaderValue(r.headers, "Content-Length") == Some(DecimalString(host.files[path]))
              else r == ServerError()
            else r == ServerError()
  {
    var path := PathInfo(environ);
    assert StartsWith(path, "/data/") by { assert path[..6] == "/data/"; }
    assert path[6..] == file;
    ServerDispatch(path);
    InvokeResolves(host, SERVER_ROUTED[1], Params(environ), file);
  }

  /** A theme request with no instance is served from the configured default theme. */
  lemma DefaultThemeRequest(host: Host, environ: map<string, string>, file: string)
    requires PathInfo(environ) == "/theme/" + file && '\n' !in file
    requires "instance" !in Params(environ)
    requires host.defaultTheme in host.themes
    ensures var path := PathJoin(host.themes[host.defaultTheme].path, file);
            var r := Serve(host, SERVER_ROUTED, environ);
            (path in host.files ==> r.status == OK_STATUS && r.body == FileBody(path, host.files[path])) &&
            (path !in host.files ==> r == ServerError())
  {
    var path := PathInfo(environ);
    assert StartsWith(path, "/theme/") by { assert path[..7] == "/theme/"; }
    assert path[7..] == file;
    ServerDispatch(path);
    InvokeResolves(host, SERVER_ROUTED[2], Params(environ), file);
  }

  /**
   * An absolute capture is not confined to the data directory: `/data//etc/passwd` opens
   * `/etc/passwd` whatever the instance's data path.
   */
  lemma AbsoluteCaptureEscapes(host: Host, environ: map<string, string>, file: string)
    requires PathInfo(environ) == "/data/" + file && StartsWith(file, "/") && '\n' !in file
    requires "instance" in Params(environ) && Params(environ)["instance"] in host.widgets
    requires file in host.files
    ensures Serve(host, SERVER_ROUTED, environ).body == FileBody(file, host.files[file])
  {
    var dir := host.widgets[Params(environ)["instance"]].dataPath;
    assert PathJoin(dir, file) == file;
    DataRequest(host, environ, file);
  }

  /** The input that shows the wrong 404 length: any path outside the four prefixes, such as `/`. */
  lemma NotFoundCounterexample(host: Host, environ: map<string, string>)
    requires PathInfo(environ) == "/"
    ensures ServeAsWritten(host, SERVER_ROUTED, environ) == NotFoundAsWritten()
    ensures !ContentLengthHonest(ServeAsWritten(host, SERVER_ROUTED, environ))
    ensures Serve(host, SERVER_ROUTED, environ) == NotFound()
  {
    ServerDispatch("/");
    NotFoundLengthMismatch();
  }

  /** Building the melange server: its routed methods are the four handlers in `dir()` order. */
  method NewServer() returns (server: Framework)
    ensures fresh(server) && server.Valid()
    ensures server.routedMethods == SERVER_ROUTED
  {
    ServerRouted();
    server := new Framework(SERVER_ATTRIBUTES);
  }
}
