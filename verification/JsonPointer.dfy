/**
 Source locations of a parsed project file: every node is recorded under its JSON
 Pointer, escaped as in sections 3 and 4 of RFC 6901.
 */
module JsonPointer {
  import opened Options

  type Range = int

  /** A parsed value. The parser refuses an object that repeats a key. */
  datatype Node =
    | Scalar(at: Range)
    | Object(at: Range, fields: seq<Field>)
    | Array(at: Range, items: seq<Node>)

  datatype Field = Field(key: string, child: Node)

  predicate DistinctKeys(fields: seq<Field>) { forall i, j | 0 <= i < j < |fields| :: fields[i].key != fields[j].key }

  predicate Parsed(n: Node) {
    match n
    case Scalar(_) => true
    case Object(_, fields) => DistinctKeys(fields) && forall i | 0 <= i < |fields| :: Parsed(fields[i].child)
    case Array(_, items) => forall i | 0 <= i < |items| :: Parsed(items[i])
  }

  // ---------- escaping ----------

  /** Every occurrence of a character replaced by a text. */
  function ReplaceAll(s: string, c: char, text: string): string {
    if s == [] then [] else (if s[0] == c then text else [s[0]]) + ReplaceAll(s[1..], c, text)
  }

  function PointerPart(value: string): string { ReplaceAll(ReplaceAll(value, '~', "~0"), '/', "~1") }

  /** Reading a part back: `~1` is a slash and `~0` a tilde. */
  function Unescape(t: string): string {
    if t == [] then []
    else if |t| >= 2 && t[0] == '~' && t[1] == '1' then ['/'] + Unescape(t[2..])
    else if |t| >= 2 && t[0] == '~' && t[1] == '0' then ['~'] + Unescape(t[2..])
    else [t[0]] + Unescape(t[1..])
  }

  function EscapeChar(c: char): string { if c == '~' then "~0" else if c == '/' then "~1" else [c] }

  lemma PartFirst(s: string)
    requires s != []
    ensures PointerPart(s) == EscapeChar(s[0]) + PointerPart(s[1..])
  {
    var rest := ReplaceAll(s[1..], '~', "~0");
    if s[0] == '~' {
      assert ReplaceAll(s, '~', "~0") == ['~', '0'] + rest;
      assert (['~', '0'] + rest)[1..] == ['0'] + rest;
      assert (['0'] + rest)[1..] == rest;
      assert ReplaceAll(['0'] + rest, '/', "~1") == ['0'] + ReplaceAll(rest, '/', "~1");
    } else {
      assert ReplaceAll(s, '~', "~0") == [s[0]] + rest;
      assert ([s[0]] + rest)[1..] == rest;
    }
  }

  /** Reading back an escaped part gives the original, so different keys have different parts. */
  lemma {:induction false} UnescapeInverts(s: string)
    ensures Unescape(PointerPart(s)) == s
  {
    if s != [] {
      PartFirst(s);
      UnescapeInverts(s[1..]);
      var head, rest := EscapeChar(s[0]), PointerPart(s[1..]);
      assert (head + rest)[|head|..] == rest;
      assert s == [s[0]] + s[1..];
    }
  }

  predicate NoSlash(s: string) { forall i | 0 <= i < |s| :: s[i] != '/' }

  lemma {:induction false} PartHasNoSlash(s: string)
    ensures NoSlash(PointerPart(s))
  {
    if s != [] {
      PartFirst(s);
      PartHasNoSlash(s[1..]);
    }
  }

  // ---------- numbers ----------

  function Digit(d: nat): (c: char)
    requires d < 10
    ensures '0' <= c <= '9'
  {
    ('0' as int + d) as char
  }

  function Decimal(n: nat): string { if n < 10 then [Digit(n)] else Decimal(n / 10) + [Digit(n % 10)] }

  function Value(s: string): int {
    if s == [] then 0 else 10 * Value(s[..|s| - 1]) + (s[|s| - 1] as int - '0' as int)
  }

  lemma {:induction false} ValueInverts(n: nat)
    ensures Value(Decimal(n)) == n && NoSlash(Decimal(n))
  {
    if n >= 10 {
      ValueInverts(n / 10);
      var s := Decimal(n);
      assert s[..|s| - 1] == Decimal(n / 10);
    } else {
      assert Decimal(n)[..0] == [];
    }
  }

  // ---------- addresses ----------

  datatype Part = Key(key: string) | Index(index: nat)

  function PartText(p: Part): string {
    match p
    case Key(k) => PointerPart(k)
    case Index(i) => Decimal(i)
  }

  lemma PartTextSegment(p: Part)
    ensures NoSlash(PartText(p))
  {
    match p {
      case Key(k) => PartHasNoSlash(k);
      case Index(i) => ValueInverts(i);
    }
  }

  function Find(fields: seq<Field>, key: string): (i: Option<nat>)
    ensures i.Some? ==> i.value < |fields| && fields[i.value].key == key
    ensures i.None? ==> forall k | 0 <= k < |fields| :: fields[k].key != key
  {
    if fields == [] then None
    else if fields[|fields| - 1].key == key then Some(|fields| - 1)
    else Find(fields[..|fields| - 1], key)
  }

  function Child(n: Node, p: Part): (child: Option<Node>)
    ensures child.Some? ==> child.value < n
  {
    match (n, p)
    case (Object(_, fields), Key(k)) =>
      if Find(fields, k).Some? then Some(fields[Find(fields, k).value].child) else None
    case (Array(_, items), Index(i)) => if i < |items| then Some(items[i]) else None
    case _ => None
  }

  /** The node at an address, if there is one. */
  function At(n: Node, path: seq<Part>): Option<Node> {
    if path == [] then Some(n)
    else if Child(n, path[0]).None? then None
    else At(Child(n, path[0]).value, path[1..])
  }

  function Pointer(path: seq<Part>): string {
    if path == [] then "" else ['/'] + (PartText(path[0]) + Pointer(path[1..]))
  }

  lemma PartsDiffer(n: Node, p: Part, q: Part)
    requires Child(n, p).Some? && Child(n, q).Some? && PartText(p) == PartText(q)
    ensures p == q
  {
    match n {
      case Object(_, _) =>
        UnescapeInverts(p.key);
        UnescapeInverts(q.key);
      case Array(_, _) =>
        ValueInverts(p.index);
        ValueInverts(q.index);
    }
  }

  /** Text up to the next slash is determined. */
  lemma {:induction false} SegmentsAgree(a: string, b: string, x: string, y: string)
    requires NoSlash(a) && NoSlash(b) && (x == "" || x[0] == '/') && (y == "" || y[0] == '/') && a + x == b + y
    ensures a == b && x == y
  {
    if a == [] {
      assert a + x == x;
    } else if b != [] {
      assert a[0] == (a + x)[0] == (b + y)[0] == b[0];
      assert a[1..] + x == (a + x)[1..] && b[1..] + y == (b + y)[1..];
      SegmentsAgree(a[1..], b[1..], x, y);
      assert a == [a[0]] + a[1..] && b == [b[0]] + b[1..];
    }
  }

  predicate Rooted(s: string) { s == "" || s[0] == '/' }

  lemma PointerRooted(path: seq<Part>)
    ensures Rooted(Pointer(path))
  {}

  lemma FirstPartsAgree(p: seq<Part>, q: seq<Part>)
    requires p != [] && q != [] && Pointer(p) == Pointer(q)
    ensures PartText(p[0]) == PartText(q[0]) && Pointer(p[1..]) == Pointer(q[1..])
  {
    hide PartText, NoSlash, Pointer;
    var a, b, x, y := PartText(p[0]), PartText(q[0]), Pointer(p[1..]), Pointer(q[1..]);
    PartTextSegment(p[0]);
    PartTextSegment(q[0]);
    PointerRooted(p[1..]);
    PointerRooted(q[1..]);
    PointerTail(p);
    PointerTail(q);
    SegmentsAgree(a, b, x, y);
  }

  lemma PointerTail(p: seq<Part>)
    requires p != []
    ensures Pointer(p) != "" && Pointer(p)[1..] == PartText(p[0]) + Pointer(p[1..])
  {
    hide PartText;
    DropFirst('/', PartText(p[0]) + Pointer(p[1..]));
  }

  lemma DropFirst(c: char, s: string)
    ensures ([c] + s)[1..] == s
  {}

  /** Distinct nodes of one tree have distinct pointers. */
  lemma {:induction false} PointersAreDistinct(n: Node, p: seq<Part>, q: seq<Part>)
    requires At(n, p).Some? && At(n, q).Some? && Pointer(p) == Pointer(q)
    ensures p == q
    decreases |p|
  {
    hide PartText;
    if p != [] && q != [] {
      FirstPartsAgree(p, q);
      PartsDiffer(n, p[0], q[0]);
      PointersAreDistinct(Child(n, p[0]).value, p[1..], q[1..]);
      assert p == [p[0]] + p[1..] && q == [q[0]] + q[1..];
    }
  }

  // ---------- recording ----------

  /** The text is the pointer of some node below `field`. */
  ghost predicate IsAddress(n: Node, field: string, text: string) {
    exists path :: At(n, path).Some? && text == field + Pointer(path)
  }

  ghost predicate Holds(n: Node, field: string, m: map<string, Range>, path: seq<Part>) {
    At(n, path).Some? ==> field + Pointer(path) in m && m[field + Pointer(path)] == At(n, path).value.at
  }

  ghost predicate SameAt(a: map<string, Range>, b: map<string, Range>, text: string) {
    (text in a <==> text in b) && (text in a ==> a[text] == b[text])
  }

  /** Every node's range is under its own pointer, and nothing else changed. */
  ghost predicate Recorded(before: map<string, Range>, n: Node, field: string, m: map<string, Range>) {
    && (forall path :: Holds(n, field, m, path))
    && (forall text | !IsAddress(n, field, text) :: SameAt(before, m, text))
  }

  /** The node itself and the subtrees of some children have been recorded. */
  ghost predicate Partly(before: map<string, Range>, n: Node, field: string, m: map<string, Range>, done: set<Part>) {
    && Holds(n, field, m, [])
    && (forall path | path != [] && path[0] in done :: Holds(n, field, m, path))
    && (forall text | !IsAddress(n, field, text) :: SameAt(before, m, text))
  }

  lemma Regroup(field: string, part: string, rest: string)
    ensures field + (['/'] + (part + rest)) == field + "/" + part + rest
  {}

  lemma ChildAddress(n: Node, part: Part, field: string, rest: seq<Part>)
    requires Child(n, part).Some?
    ensures At(n, [part] + rest) == At(Child(n, part).value, rest)
    ensures field + Pointer([part] + rest) == field + "/" + PartText(part) + Pointer(rest)
  {
    hide PartText;
    assert ([part] + rest)[1..] == rest;
    Regroup(field, PartText(part), Pointer(rest));
  }

  /** No node outside a child's subtree has a pointer inside it. */
  lemma OutsideChild(n: Node, part: Part, field: string, path: seq<Part>)
    requires Child(n, part).Some? && At(n, path).Some? && (path == [] || path[0] != part)
    ensures !IsAddress(Child(n, part).value, field + "/" + PartText(part), field + Pointer(path))
  {
    hide PartText, Pointer;
    if IsAddress(Child(n, part).value, field + "/" + PartText(part), field + Pointer(path)) {
      var rest :| At(Child(n, part).value, rest).Some? &&
                  field + Pointer(path) == field + "/" + PartText(part) + Pointer(rest);
      ChildAddress(n, part, field, rest);
      assert (field + Pointer(path))[|field|..] == Pointer(path);
      assert (field + Pointer([part] + rest))[|field|..] == Pointer([part] + rest);
      PointersAreDistinct(n, path, [part] + rest);
    }
  }

  lemma ChildIsInside(n: Node, part: Part, field: string, text: string)
    requires Child(n, part).Some? && IsAddress(Child(n, part).value, field + "/" + PartText(part), text)
    ensures IsAddress(n, field, text)
  {
    hide PartText, Pointer;
    var rest :| At(Child(n, part).value, rest).Some? && text == field + "/" + PartText(part) + Pointer(rest);
    ChildAddress(n, part, field, rest);
  }

  lemma PartlyNext(
    before: map<string, Range>, n: Node, field: string, m: map<string, Range>, done: set<Part>, part: Part,
    m': map<string, Range>)
    requires Partly(before, n, field, m, done) && Child(n, part).Some? && part !in done
    requires Recorded(m, Child(n, part).value, field + "/" + PartText(part), m')
    ensures Partly(before, n, field, m', done + {part})
  {
    hide PartText, Pointer, At;
    forall path | path == [] || path[0] in done + {part}
      ensures Holds(n, field, m', path)
    {
      if path != [] && path[0] == part {
        assert path == [part] + path[1..];
        ChildAddress(n, part, field, path[1..]);
        assert Holds(Child(n, part).value, field + "/" + PartText(part), m', path[1..]);
      } else {
        assert Holds(n, field, m, path);
        if At(n, path).Some? {
          OutsideChild(n, part, field, path);
          assert SameAt(m, m', field + Pointer(path));
        }
      }
    }
    forall text | !IsAddress(n, field, text)
      ensures SameAt(before, m', text)
    {
      if IsAddress(Child(n, part).value, field + "/" + PartText(part), text) {
        ChildIsInside(n, part, field, text);
      }
      assert SameAt(before, m, text) && SameAt(m, m', text);
    }
  }

  lemma PartlyStarts(before: map<string, Range>, n: Node, field: string)
    ensures Partly(before, n, field, before[field := n.at], {})
  {
    assert field + Pointer([]) == field;
    assert At(n, []) == Some(n);
    assert IsAddress(n, field, field);
  }

  /** All children done is all done. */
  lemma PartlyEnds(before: map<string, Range>, n: Node, field: string, m: map<string, Range>, done: set<Part>)
    requires Partly(before, n, field, m, done) && forall part | Child(n, part).Some? :: part in done
    ensures Recorded(before, n, field, m)
  {
    hide Pointer;
    forall path
      ensures Holds(n, field, m, path)
    {
      if path != [] && At(n, path).Some? {
        assert Child(n, path[0]).Some?;
      }
    }
  }

  function Keys(fields: seq<Field>, n: nat): set<Part>
    requires n <= |fields|
  {
    set i | 0 <= i < n :: Key(fields[i].key)
  }

  function Indexes(n: nat): set<Part> { set i: nat | i < n :: Index(i) }

  lemma FieldChild(n: Node, i: nat)
    requires n.Object? && DistinctKeys(n.fields) && i < |n.fields|
    ensures Child(n, Key(n.fields[i].key)) == Some(n.fields[i].child)
    ensures Key(n.fields[i].key) !in Keys(n.fields, i)
    ensures Keys(n.fields, i + 1) == Keys(n.fields, i) + {Key(n.fields[i].key)}
  {}

  /** Records the range of every node of the subtree under its pointer. */
  method CollectNodeLocations(n: Node, field: string, locations: map<string, Range>) returns (out: map<string, Range>)
    requires Parsed(n)
    ensures Recorded(locations, n, field, out)
    decreases n
  {
    hide Recorded, Partly, PointerPart, Decimal, Child;
    out := locations[field := n.at];
    PartlyStarts(locations, n, field);
    match n {
      case Scalar(_) =>
        NoChildren(n);
        PartlyEnds(locations, n, field, out, {});
      case Object(_, fields) =>
        assert Keys(fields, 0) == {};
        for i := 0 to |fields|
          invariant Partly(locations, n, field, out, Keys(fields, i))
        {
          FieldChild(n, i);
          ghost var before := out;
          out := CollectNodeLocations(fields[i].child, field + "/" + PointerPart(fields[i].key), out);
          PartlyNext(locations, n, field, before, Keys(fields, i), Key(fields[i].key), out);
        }
        AllFields(n);
        PartlyEnds(locations, n, field, out, Keys(fields, |fields|));
      case Array(_, items) =>
        assert Indexes(0) == {};
        for i := 0 to |items|
          invariant Partly(locations, n, field, out, Indexes(i))
        {
          ItemChild(n, i);
          ghost var before := out;
          out := CollectNodeLocations(items[i], field + "/" + Decimal(i), out);
          PartlyNext(locations, n, field, before, Indexes(i), Index(i), out);
        }
        AllItems(n);
        PartlyEnds(locations, n, field, out, Indexes(|items|));
    }
  }

  lemma NoChildren(n: Node)
    requires n.Scalar?
    ensures forall part :: Child(n, part).None?
  {}

  lemma ItemChild(n: Node, i: nat)
    requires n.Array? && i < |n.items|
    ensures Child(n, Index(i)) == Some(n.items[i])
    ensures Index(i) !in Indexes(i) && Indexes(i + 1) == Indexes(i) + {Index(i)}
  {}

  lemma AllFields(n: Node)
    requires n.Object?
    ensures forall part | Child(n, part).Some? :: part in Keys(n.fields, |n.fields|)
  {
    forall part | Child(n, part).Some?
      ensures part in Keys(n.fields, |n.fields|)
    {
      var i := Find(n.fields, part.key).value;
      assert n.fields[i].key == part.key;
    }
  }

  lemma AllItems(n: Node)
    requires n.Array?
    ensures forall part | Child(n, part).Some? :: part in Indexes(|n.items|)
  {}

  // ---------- looking up ----------

  /** A pointer from its segments. */
  function Join(segments: seq<string>): string {
    if segments == [] then "" else Join(segments[..|segments| - 1]) + "/" + segments[|segments| - 1]
  }

  predicate Segments(segments: seq<string>) { forall i | 0 <= i < |segments| :: NoSlash(segments[i]) }

  function LastSlash(s: string): (index: int)
    ensures -1 <= index < |s|
  {
    if s == [] then -1 else if s[|s| - 1] == '/' then |s| - 1 else LastSlash(s[..|s| - 1])
  }

  method LastIndex(s: string) returns (index: int)
    ensures index == LastSlash(s)
  {
    index := |s| - 1;
    assert s[..|s|] == s;
    while index >= 0 && s[index] != '/'
      invariant -1 <= index < |s| && LastSlash(s[..index + 1]) == LastSlash(s)
    {
      assert s[..index + 1][..index] == s[..index];
      index := index - 1;
    }
  }

  /** The range recorded for the text or, failing that, for the text up to its last slash, and so on. */
  function Locate(locations: map<string, Range>, field: string): Option<Range>
    decreases |field|
  {
    if field in locations then Some(locations[field])
    else if LastSlash(field) < 0 then None
    else Locate(locations, field[..LastSlash(field)])
  }

  /** `None` stands for the file as a whole. */
  method Location(locations: map<string, Range>, field: string) returns (r: Option<Range>)
    ensures r == Locate(locations, field)
  {
    var f := field;
    while true
      invariant Locate(locations, f) == Locate(locations, field)
      decreases |f|
    {
      if f in locations {
        return Some(locations[f]);
      }
      var index := LastIndex(f);
      if index < 0 {
        break;
      }
      f := f[..index];
    }
    r := None;
  }

  lemma {:induction false} LastSlashAfter(prefix: string, segment: string)
    requires NoSlash(segment)
    ensures LastSlash(prefix + "/" + segment) == |prefix|
  {
    var s := prefix + "/" + segment;
    if segment != [] {
      LastSlashAfter(prefix, segment[..|segment| - 1]);
      assert s[..|s| - 1] == prefix + "/" + segment[..|segment| - 1];
    }
  }

  /** The longest prefix of the segments that is recorded. */
  ghost predicate DeepestRecorded(locations: map<string, Range>, segments: seq<string>, k: nat) {
    && k <= |segments| && Join(segments[..k]) in locations
    && forall j | k < j <= |segments| :: Join(segments[..j]) !in locations
  }

  lemma {:induction false} LocateFindsDeepest(locations: map<string, Range>, segments: seq<string>, k: nat)
    requires Segments(segments) && DeepestRecorded(locations, segments, k)
    ensures Locate(locations, Join(segments)) == Some(locations[Join(segments[..k])])
  {
    var n := |segments|;
    assert segments[..n] == segments;
    if k < n {
      var shorter := segments[..n - 1];
      var prefix := Join(shorter);
      LastSlashAfter(prefix, segments[n - 1]);
      assert (prefix + "/" + segments[n - 1])[..|prefix|] == prefix;
      assert forall j | 0 <= j <= n - 1 :: shorter[..j] == segments[..j];
      LocateFindsDeepest(locations, shorter, k);
    }
  }

  /** A node whose pointer is the first k segments. */
  ghost predicate NodeAlong(root: Node, segments: seq<string>, k: nat, path: seq<Part>)
    requires k <= |segments|
  {
    At(root, path).Some? && Pointer(path) == Join(segments[..k])
  }

  lemma RecordedAlong(root: Node, m: map<string, Range>, segments: seq<string>, k: nat)
    requires Recorded(map[], root, "", m) && k <= |segments|
    ensures Join(segments[..k]) in m <==> exists path :: NodeAlong(root, segments, k, path)
    ensures forall path | NodeAlong(root, segments, k, path) ::
              Join(segments[..k]) in m && m[Join(segments[..k])] == At(root, path).value.at
  {
    hide At, Pointer, Join;
    var text := Join(segments[..k]);
    forall path | NodeAlong(root, segments, k, path)
      ensures text in m && m[text] == At(root, path).value.at
    {
      assert Holds(root, "", m, path);
      assert "" + Pointer(path) == Pointer(path);
    }
    if text in m {
      if !IsAddress(root, "", text) && SameAt(map[], m, text) {
      }
      var path :| At(root, path).Some? && text == "" + Pointer(path);
      assert "" + Pointer(path) == Pointer(path);
      assert NodeAlong(root, segments, k, path);
    }
  }

  /** The deepest existing node along a pointer exists, and its range is what a lookup returns. */
  lemma LocationIsDeepestNode(root: Node, m: map<string, Range>, segments: seq<string>) returns (k: nat, path: seq<Part>)
    requires Recorded(map[], root, "", m) && Segments(segments)
    ensures k <= |segments| && NodeAlong(root, segments, k, path)
    ensures Locate(m, Join(segments)) == Some(At(root, path).value.at)
    ensures forall j, q | k < j <= |segments| :: !NodeAlong(root, segments, j, q)
  {
    hide Recorded, Locate, At, Pointer;
    k := |segments|;
    while !(Join(segments[..k]) in m)
      invariant k <= |segments| && forall j | k < j <= |segments| :: Join(segments[..j]) !in m
      decreases k
    {
      RootAlong(root, segments);
      RecordedAlong(root, m, segments, 0);
      k := k - 1;
    }
    forall j | k <= j <= |segments|
      ensures Join(segments[..j]) in m <==> exists q :: NodeAlong(root, segments, j, q)
    {
      RecordedAlong(root, m, segments, j);
    }
    path :| NodeAlong(root, segments, k, path);
    RecordedAlong(root, m, segments, k);
    LocateFindsDeepest(m, segments, k);
  }

  lemma RootAlong(root: Node, segments: seq<string>)
    ensures NodeAlong(root, segments, 0, [])
  {}

  /** Every text that is empty or starts with a slash is a pointer of segments. */
  lemma {:induction false} EveryPointerHasSegments(text: string) returns (segments: seq<string>)
    requires Rooted(text)
    ensures Segments(segments) && Join(segments) == text
    decreases |text|
  {
    if text == "" {
      segments := [];
    } else {
      LastSlashSplits(text);
      var index := LastSlash(text);
      var front := EveryPointerHasSegments(text[..index]);
      segments := front + [text[index + 1..]];
      assert segments[..|front|] == front;
      assert text == text[..index] + "/" + text[index + 1..];
    }
  }

  lemma {:induction false} LastSlashSplits(text: string)
    requires text != "" && text[0] == '/'
    ensures LastSlash(text) >= 0 && text[LastSlash(text)] == '/' && NoSlash(text[LastSlash(text) + 1..])
  {
    if text[|text| - 1] != '/' {
      LastSlashSplits(text[..|text| - 1]);
      var index := LastSlash(text);
      assert text[index + 1..] == text[..|text| - 1][index + 1..] + [text[|text| - 1]];
    }
  }
}
