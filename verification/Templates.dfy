/**
  The template language of parameters, audiences, variables and files: a fragment of Go's
  text/template over a string map, executed with missingkey=error.  Fields may be chained, `if`
  and `with` have else branches, `with` rebinds the dot, and `eq` compares two values.
 */
module Templates {
  import opened Text
  import opened Bytes

  type Values = map<string, string>

  datatype Expr =
    | Dot
    | Field(name: string, rest: seq<string>)
    | Literal(text: string)
    | Eq(left: Expr, right: Expr)

  datatype Node =
    | Plain(text: string)
    | Action(e: Expr)
    | If(cond: Expr, thn: Node, els: Node)
    | With(subject: Expr, body: Node, els: Node)
    | Skip
    | Then(first: Node, second: Node)

  /** A template as written: the empty text, one that does not parse, or one with a tree. */
  datatype Template = Empty | Unparsable | Parsed(root: Node)

  /* ---------- evaluation ---------- */

  datatype Val = Root | Str(s: string) | Bool(b: bool)

  function Eval(e: Expr, dot: Val, v: Values): Option<Val>
  {
    match e
    case Dot => Some(dot)
    case Field(name, rest) => if dot.Root? && name in v && rest == [] then Some(Str(v[name])) else None
    case Literal(text) => Some(Str(text))
    case Eq(left, right) =>
      match (Eval(left, dot, v), Eval(right, dot, v))
      case (Some(Str(a)), Some(Str(b))) => Some(Bool(a == b))
      case (Some(Bool(a)), Some(Bool(b))) => Some(Bool(a == b))
      case _ => None
  }

  predicate Truth(x: Val, v: Values)
  {
    match x
    case Root => v != map[]
    case Str(s) => s != ""
    case Bool(b) => b
  }

  function Show(x: Val, v: Values): string
  {
    match x
    case Root => PrintMap(v)
    case Str(s) => s
    case Bool(b) => if b then "true" else "false"
  }

  function Render(n: Node, dot: Val, v: Values): Option<string>
  {
    match n
    case Plain(text) => Some(text)
    case Action(e) =>
      (match Eval(e, dot, v)
       case None => None
       case Some(x) => Some(Show(x, v)))
    case If(cond, thn, els) =>
      (match Eval(cond, dot, v)
       case None => None
       case Some(x) => if Truth(x, v) then Render(thn, dot, v) else Render(els, dot, v))
    case With(subject, body, els) =>
      (match Eval(subject, dot, v)
       case None => None
       case Some(x) => if Truth(x, v) then Render(body, x, v) else Render(els, dot, v))
    case Skip => Some("")
    case Then(first, second) =>
      match (Render(first, dot, v), Render(second, dot, v))
      case (Some(a), Some(b)) => Some(a + b)
      case _ => None
  }

  function RenderTemplate(t: Template, v: Values): Option<string>
  {
    match t
    case Empty => Some("")
    case Unparsable => None
    case Parsed(root) => Render(root, Root, v)
  }

  /* ---------- what is rendered ---------- */

  /** Execution the way Go does it: a walk that appends to an output and stops at the first error. */
  function Execute(n: Node, dot: Val, v: Values, out: string): Option<string>
  {
    match n
    case Plain(text) => Some(out + text)
    case Action(e) =>
      (match Eval(e, dot, v)
       case None => None
       case Some(x) => Some(out + Show(x, v)))
    case If(cond, thn, els) =>
      (match Eval(cond, dot, v)
       case None => None
       case Some(x) => if Truth(x, v) then Execute(thn, dot, v, out) else Execute(els, dot, v, out))
    case With(subject, body, els) =>
      (match Eval(subject, dot, v)
       case None => None
       case Some(x) => if Truth(x, v) then Execute(body, x, v, out) else Execute(els, dot, v, out))
    case Skip => Some(out)
    case Then(first, second) =>
      match Execute(first, dot, v, out)
      case None => None
      case Some(sofar) => Execute(second, dot, v, sofar)
  }

  /** Rendering is execution: the text is what the walk appends, in the order of the template. */
  lemma {:induction false} RenderIsExecution(n: Node, dot: Val, v: Values, out: string)
    ensures Execute(n, dot, v, out)
            == match Render(n, dot, v)
               case None => None
               case Some(text) => Some(out + text)
  {
    hide PrintMap;
    match n
    case Plain(_) =>
    case Action(_) =>
    case If(_, thn, els) =>
      RenderIsExecution(thn, dot, v, out);
      RenderIsExecution(els, dot, v, out);
    case With(subject, body, els) =>
      var x := Eval(subject, dot, v);
      if x.Some? {
        RenderIsExecution(body, x.value, v, out);
      }
      RenderIsExecution(els, dot, v, out);
    case Skip =>
      assert out + "" == out;
    case Then(first, second) =>
      RenderIsExecution(first, dot, v, out);
      var a, b := Render(first, dot, v), Render(second, dot, v);
      if a.Some? {
        RenderIsExecution(second, dot, v, out + a.value);
        if b.Some? {
          Associative(out, a.value, b.value);
        }
      }
  }

  /** A template without branches as a list: words, and keys whose values are filled in. */
  datatype Piece = Words(text: string) | Key(name: string)

  function Pieces(n: Node): Option<seq<Piece>>
  {
    match n
    case Plain(text) => Some([Words(text)])
    case Action(e) => if e.Field? && e.rest == [] then Some([Key(e.name)]) else None
    case If(_, _, _) => None
    case With(_, _, _) => None
    case Skip => Some([])
    case Then(first, second) =>
      match (Pieces(first), Pieces(second))
      case (Some(a), Some(b)) => Some(a + b)
      case _ => None
  }

  function PieceText(p: Piece, v: Values): string
  {
    match p
    case Words(text) => text
    case Key(name) => if name in v then v[name] else ""
  }

  /** The pieces one after another, from left to right. */
  function Spelled(ps: seq<Piece>, v: Values): string
  {
    if ps == [] then "" else PieceText(ps[0], v) + Spelled(ps[1..], v)
  }

  lemma {:induction false} SpelledAppend(a: seq<Piece>, b: seq<Piece>, v: Values)
    ensures Spelled(a + b, v) == Spelled(a, v) + Spelled(b, v)
  {
    hide PieceText;
    if a == [] {
      assert a + b == b;
    } else {
      SpelledAppend(a[1..], b, v);
      assert (a + b)[1..] == a[1..] + b;
      Associative(PieceText(a[0], v), Spelled(a[1..], v), Spelled(b, v));
    }
  }

  predicate KeysDefined(ps: seq<Piece>, v: Values)
  {
    forall i :: 0 <= i < |ps| && ps[i].Key? ==> ps[i].name in v
  }

  lemma KeysDefinedAppend(a: seq<Piece>, b: seq<Piece>, v: Values)
    ensures KeysDefined(a + b, v) <==> KeysDefined(a, v) && KeysDefined(b, v)
  {
    var all := a + b;
    assert forall i :: 0 <= i < |a| ==> a[i] == all[i];
    assert forall i :: 0 <= i < |b| ==> b[i] == all[|a| + i];
  }

  lemma {:induction false} OnePiece(p: Piece, v: Values)
    ensures Spelled([p], v) == PieceText(p, v) && (KeysDefined([p], v) <==> (p.Key? ==> p.name in v))
  {
    assert [p][1..] == [] && Spelled([], v) == "" && PieceText(p, v) + "" == PieceText(p, v);
    assert [p][0] == p;
  }

  /** Such a template renders to its words and the values of its keys, in order, and fails on a missing key. */
  lemma {:induction false} PiecesRender(n: Node, v: Values)
    requires Pieces(n).Some?
    ensures Render(n, Root, v)
            == if KeysDefined(Pieces(n).value, v) then Some(Spelled(Pieces(n).value, v)) else None
  {
    match n
    case Plain(text) => OnePiece(Words(text), v);
    case Action(e) => OnePiece(Key(e.name), v);
    case Skip =>
    case Then(first, second) =>
      PiecesRender(first, v);
      PiecesRender(second, v);
      hide KeysDefined, Spelled;
      SpelledAppend(Pieces(first).value, Pieces(second).value, v);
      KeysDefinedAppend(Pieces(first).value, Pieces(second).value, v);
  }

  /** Branches: a non-empty field takes the first one, and inside `with` the dot is its value. */
  lemma {:induction false} BranchesRender(k: string, l: string, thn: Node, els: Node, v: Values)
    requires k in v && l in v
    ensures v[k] != "" ==> Render(If(Field(k, []), thn, els), Root, v) == Render(thn, Root, v)
    ensures v[k] == "" ==> Render(If(Field(k, []), thn, els), Root, v) == Render(els, Root, v)
    ensures v[k] != "" ==> Render(With(Field(k, []), Then(Action(Dot), thn), els), Root, v)
                           == Render(Then(Plain(v[k]), thn), Str(v[k]), v)
    ensures v[k] == "" ==> Render(With(Field(k, []), thn, els), Root, v) == Render(els, Root, v)
    ensures v[k] == v[l] ==> Render(If(Eq(Field(k, []), Field(l, [])), thn, els), Root, v) == Render(thn, Root, v)
    ensures v[k] != v[l] ==> Render(If(Eq(Field(k, []), Field(l, [])), thn, els), Root, v) == Render(els, Root, v)
    ensures Render(Action(Eq(Field(k, []), Literal(v[l]))), Root, v) == Some(if v[k] == v[l] then "true" else "false")
  {
    hide PrintMap;
    var a, b := Field(k, []), Field(l, []);
    assert Eval(a, Root, v) == Some(Str(v[k])) && Eval(b, Root, v) == Some(Str(v[l]));
    assert Eval(Eq(a, b), Root, v) == Some(Bool(v[k] == v[l]));
    assert Eval(Eq(a, Literal(v[l])), Root, v) == Some(Bool(v[k] == v[l]));
    assert Render(Action(Dot), Str(v[k]), v) == Some(v[k]) == Render(Plain(v[k]), Str(v[k]), v);
  }

  /* ---------- printing the whole map, in key order ---------- */

  predicate IsLeast(k: string, ks: set<string>)
  {
    k in ks && forall j :: j in ks && j != k ==> Less(k, j)
  }

  lemma {:induction false} LeastExists(ks: set<string>)
    requires ks != {}
    ensures exists k :: IsLeast(k, ks)
    decreases |ks|
  {
    var x :| x in ks;
    var rest := ks - {x};
    if rest == {} {
      assert ks == {x};
      assert IsLeast(x, ks);
    } else {
      LeastExists(rest);
      var k :| IsLeast(k, rest);
      LessTrichotomy(k, x);
      if Less(x, k) {
        forall j | j in ks && j != x ensures Less(x, j) {
          if j != k {
            LessTransitive(x, k, j);
          }
        }
        assert IsLeast(x, ks);
      } else {
        assert IsLeast(k, ks);
      }
    }
  }

  lemma LeastUnique(ks: set<string>, a: string, b: string)
    requires IsLeast(a, ks) && IsLeast(b, ks)
    ensures a == b
  {
    LessTrichotomy(a, b);
  }

  function Least(ks: set<string>): (k: string)
    requires ks != {}
    ensures IsLeast(k, ks)
  {
    LeastExists(ks);
    assert forall a, b :: IsLeast(a, ks) && IsLeast(b, ks) ==> a == b by {
      forall a, b | IsLeast(a, ks) && IsLeast(b, ks) ensures a == b {
        LeastUnique(ks, a, b);
      }
    }
    var k :| k in ks && IsLeast(k, ks);
    k
  }

  function PrintEntries(v: Values): string
    decreases |v|
  {
    if v == map[] then ""
    else
      var k := Least(v.Keys);
      k + ":" + v[k] + (if |v| == 1 then "" else " " + PrintEntries(v - {k}))
  }

  function PrintMap(v: Values): string { "map[" + PrintEntries(v) + "]" }

  /** Two entries print as Go prints a map: the smaller key first. */
  lemma {:induction false} PrintTwo(a: string, x: string, b: string, y: string)
    requires Less(a, b)
    ensures PrintMap(map[a := x, b := y]) == "map[" + a + ":" + x + " " + b + ":" + y + "]"
  {
    LessTrichotomy(a, b);
    var v := map[a := x, b := y];
    assert v.Keys == {a, b} && IsLeast(a, v.Keys);
    LeastUnique(v.Keys, a, Least(v.Keys));
    assert v - {a} == map[b := y];
    var w := map[b := y];
    assert w.Keys == {b} && Least(w.Keys) == b;
    assert |v| == |v.Keys| == 2 && |w| == |w.Keys| == 1;
    hide Less;
    assert PrintEntries(w) == b + ":" + y;
    assert PrintEntries(v) == a + ":" + x + (" " + (b + ":" + y));
  }

  lemma {:induction false} PrintLength(v: Values)
    requires v != map[]
    ensures |PrintEntries(v)| + 1 == MapBytes(v) + 2 * |v|
    decreases |v|
  {
    var k := Least(v.Keys);
    MapBytesTake(v, k);
    assert (v - {k}).Keys == v.Keys - {k};
    if |v| == 1 {
      assert |(v - {k}).Keys| == 0;
      assert v - {k} == map[];
    } else {
      PrintLength(v - {k});
    }
  }

  predicate Submap(v: Values, w: Values)
  {
    forall k :: k in v ==> k in w && v[k] == w[k]
  }

  lemma {:induction false} SubmapSize(v: Values, w: Values)
    requires Submap(v, w)
    ensures |v| <= |w| && MapBytes(v) <= MapBytes(w)
    ensures v != w ==> |v| < |w|
    decreases |v|
  {
    if v == map[] {
      hide MapBytes;
      assert MapBytes(v) == 0 by { EmptyBytes(); }
    } else {
      hide MapBytes;
      var k :| k in v;
      MapBytesTake(v, k);
      MapBytesTake(w, k);
      SubmapSize(v - {k}, w - {k});
      assert (v - {k}).Keys == v.Keys - {k} && (w - {k}).Keys == w.Keys - {k};
      if v != w {
        assert v == (v - {k})[k := v[k]] && w == (w - {k})[k := w[k]];
      }
    }
  }

  lemma EmptyBytes()
    ensures MapBytes(map[]) == 0
  {
  }

  /** Every further key makes the printed map longer. */
  lemma LargerMapPrintsLonger(v: Values, w: Values)
    requires v != map[] && Submap(v, w) && v != w
    ensures |PrintMap(v)| < |PrintMap(w)|
  {
    SubmapSize(v, w);
    PrintLength(v);
    PrintLength(w);
  }

  /* ---------- referenced keys ---------- */

  /** The identifiers walkNode reports for an expression and for a node, in visiting order. */
  function ExprVisits(e: Expr): seq<string>
  {
    match e
    case Dot => []
    case Field(name, _) => [name]
    case Literal(_) => []
    case Eq(left, right) => ExprVisits(left) + ExprVisits(right)
  }

  function Visits(n: Node): seq<string>
  {
    match n
    case Plain(_) => []
    case Action(e) => ExprVisits(e)
    case If(cond, thn, els) => ExprVisits(cond) + Visits(thn) + Visits(els)
    case With(subject, body, els) => ExprVisits(subject) + Visits(body) + Visits(els)
    case Skip => []
    case Then(first, second) => Visits(first) + Visits(second)
  }

  function AddKey(keys: seq<string>, key: string): seq<string>
  {
    if key in keys then keys else keys + [key]
  }

  function Collect(keys: seq<string>, visits: seq<string>): seq<string>
  {
    if visits == [] then keys else AddKey(Collect(keys, visits[..|visits| - 1]), visits[|visits| - 1])
  }

  /** None for a template that does not parse; otherwise its keys in order of first appearance. */
  function ReferencedKeys(t: Template): Option<seq<string>>
  {
    match t
    case Empty => Some([])
    case Unparsable => None
    case Parsed(root) => Some(Collect([], Visits(root)))
  }

  /** Each key once, and exactly the visited ones. */
  lemma {:induction false} CollectCharacterised(visits: seq<string>)
    ensures Distinct(Collect([], visits))
    ensures forall k :: k in Collect([], visits) <==> k in visits
  {
    if visits != [] {
      var front, key := visits[..|visits| - 1], visits[|visits| - 1];
      CollectCharacterised(front);
      assert visits == front + [key];
    }
  }

  /** Key a is visited at some point before key b is visited at all. */
  predicate Precedes(visits: seq<string>, a: string, b: string)
  {
    exists p :: 0 <= p < |visits| && visits[p] == a && b !in visits[..p + 1]
  }

  lemma PrecedesMore(visits: seq<string>, key: string, a: string, b: string)
    requires Precedes(visits, a, b)
    ensures Precedes(visits + [key], a, b)
  {
    var p :| 0 <= p < |visits| && visits[p] == a && b !in visits[..p + 1];
    assert (visits + [key])[p] == a && (visits + [key])[..p + 1] == visits[..p + 1];
  }

  lemma FreshComesLast(visits: seq<string>, key: string, a: string)
    requires a in visits && key !in visits
    ensures Precedes(visits + [key], a, key)
  {
    var p :| 0 <= p < |visits| && visits[p] == a;
    assert (visits + [key])[p] == a && (visits + [key])[..p + 1] == visits[..p + 1];
    assert forall q :: 0 <= q < p + 1 ==> visits[q] in visits;
  }

  /** Keys are listed in order of first appearance. */
  lemma {:induction false} CollectOrder(visits: seq<string>, i: nat, j: nat)
    requires i < j < |Collect([], visits)|
    ensures Precedes(visits, Collect([], visits)[i], Collect([], visits)[j])
  {
    hide Precedes;
    var front, key := visits[..|visits| - 1], visits[|visits| - 1];
    var before := Collect([], front);
    assert visits == front + [key];
    CollectCharacterised(front);
    if j < |before| {
      CollectOrder(front, i, j);
      PrecedesMore(front, key, before[i], before[j]);
    } else {
      assert before[i] in before;
      FreshComesLast(front, key, before[i]);
    }
  }

  /** The visitor of ReferencedKeys: a set of seen keys and the list being built. */
  class KeyCollector {
    var seen: set<string>
    var keys: seq<string>

    ghost predicate Valid()
      reads this
    {
      forall k :: k in seen <==> k in keys
    }

    constructor ()
      ensures Valid() && keys == []
    {
      seen, keys := {}, [];
    }

    method Visit(field: string)
      requires Valid()
      modifies this
      ensures Valid() && keys == AddKey(old(keys), field)
    {
      if field in seen {
        return;
      }
      seen := seen + {field};
      keys := keys + [field];
    }

    method WalkExpr(e: Expr)
      requires Valid()
      modifies this
      ensures Valid() && keys == Collect(old(keys), ExprVisits(e))
    {
      match e
      case Dot =>
      case Field(name, _) =>
        assert [name][..0] == [];
        Visit(name);
      case Literal(_) =>
      case Eq(left, right) =>
        CollectAppend(keys, ExprVisits(left), ExprVisits(right));
        WalkExpr(left);
        WalkExpr(right);
    }

    method WalkBranch(ghost whole: Node, e: Expr, list: Node, elseList: Node)
      requires Valid() && list < whole && elseList < whole
      modifies this
      ensures Valid() && keys == Collect(old(keys), ExprVisits(e) + Visits(list) + Visits(elseList))
      decreases whole, 0
    {
      CollectAppend(keys, ExprVisits(e), Visits(list));
      CollectAppend(keys, ExprVisits(e) + Visits(list), Visits(elseList));
      WalkExpr(e);
      WalkNode(list);
      WalkNode(elseList);
    }

    method WalkNode(n: Node)
      requires Valid()
      modifies this
      ensures Valid() && keys == Collect(old(keys), Visits(n))
      decreases n, 1
    {
      match n
      case Plain(_) =>
      case Action(e) => WalkExpr(e);
      case If(cond, thn, els) => WalkBranch(n, cond, thn, els);
      case With(subject, body, els) => WalkBranch(n, subject, body, els);
      case Skip =>
      case Then(first, second) =>
        CollectAppend(keys, Visits(first), Visits(second));
        WalkNode(first);
        WalkNode(second);
    }
  }

  method CollectKeys(t: Template) returns (r: Option<seq<string>>)
    ensures r == ReferencedKeys(t)
  {
    if t.Unparsable? {
      return None;
    }
    var c := new KeyCollector();
    if t.Parsed? {
      c.WalkNode(t.root);
    }
    r := Some(c.keys);
  }

  lemma {:induction false} CollectAppend(keys: seq<string>, a: seq<string>, b: seq<string>)
    ensures Collect(keys, a + b) == Collect(Collect(keys, a), b)
  {
    if b == [] {
      assert a + b == a;
    } else {
      CollectAppend(keys, a, b[..|b| - 1]);
      assert (a + b)[..|a + b| - 1] == a + b[..|b| - 1];
    }
  }

  predicate Covers(v: Values, keys: seq<string>)
  {
    forall k :: k in keys ==> k in v
  }

  predicate Agree(v: Values, w: Values, keys: seq<string>)
  {
    forall k :: k in keys ==> (k in v <==> k in w) && (k in v ==> v[k] == w[k])
  }

  /* ---------- coincidence ---------- */

  /** Rendering this node prints the whole value map somewhere. */
  predicate ShowsRoot(n: Node, dot: Val, v: Values)
  {
    match n
    case Plain(_) => false
    case Action(e) => Eval(e, dot, v) == Some(Root)
    case If(cond, thn, els) =>
      var x := Eval(cond, dot, v);
      x.Some? && (if Truth(x.value, v) then ShowsRoot(thn, dot, v) else ShowsRoot(els, dot, v))
    case With(subject, body, els) =>
      var x := Eval(subject, dot, v);
      x.Some? && (if Truth(x.value, v) then ShowsRoot(body, x.value, v) else ShowsRoot(els, dot, v))
    case Skip => false
    case Then(first, second) => ShowsRoot(first, dot, v) || ShowsRoot(second, dot, v)
  }

  lemma {:induction false} EvalCoincides(e: Expr, dot: Val, v: Values, w: Values)
    requires Agree(v, w, ExprVisits(e))
    ensures Eval(e, dot, v) == Eval(e, dot, w)
  {
    match e
    case Dot =>
    case Field(name, _) => assert name in ExprVisits(e);
    case Literal(_) =>
    case Eq(left, right) =>
      AgreeParts(v, w, ExprVisits(left), ExprVisits(right));
      EvalCoincides(left, dot, v, w);
      EvalCoincides(right, dot, v, w);
  }

  lemma AgreeParts(v: Values, w: Values, a: seq<string>, b: seq<string>)
    requires Agree(v, w, a + b)
    ensures Agree(v, w, a) && Agree(v, w, b)
  {
    assert forall k :: k in a || k in b ==> k in a + b;
  }

  lemma TruthCoincides(x: Val, v: Values, w: Values)
    requires v != map[] && w != map[]
    ensures Truth(x, v) == Truth(x, w)
  {
  }

  /**
    Coincidence: non-empty maps that agree on the visited keys fail together, show the whole map
    together, and, when they do not show it, render the same text.
   */
  lemma {:induction false} Coincidence(n: Node, dot: Val, v: Values, w: Values)
    requires v != map[] && w != map[] && Agree(v, w, Visits(n))
    ensures Render(n, dot, v).Some? == Render(n, dot, w).Some?
    ensures ShowsRoot(n, dot, v) == ShowsRoot(n, dot, w)
    ensures !ShowsRoot(n, dot, v) ==> Render(n, dot, v) == Render(n, dot, w)
  {
    hide Agree, PrintMap;
    match n
    case Plain(_) =>
    case Action(e) => EvalCoincides(e, dot, v, w);
    case If(cond, thn, els) =>
      AgreeParts(v, w, ExprVisits(cond) + Visits(thn), Visits(els));
      AgreeParts(v, w, ExprVisits(cond), Visits(thn));
      EvalCoincides(cond, dot, v, w);
      Coincidence(thn, dot, v, w);
      Coincidence(els, dot, v, w);
    case With(subject, body, els) =>
      AgreeParts(v, w, ExprVisits(subject) + Visits(body), Visits(els));
      AgreeParts(v, w, ExprVisits(subject), Visits(body));
      EvalCoincides(subject, dot, v, w);
      var x := Eval(subject, dot, v);
      if x.Some? {
        TruthCoincides(x.value, v, w);
        Coincidence(body, x.value, v, w);
      }
      Coincidence(els, dot, v, w);
    case Skip =>
    case Then(first, second) =>
      AgreeParts(v, w, Visits(first), Visits(second));
      Coincidence(first, dot, v, w);
      Coincidence(second, dot, v, w);
  }

  /** A rendering is as long as the map it prints lets it be; it says nothing else about the rest. */
  lemma {:induction false} ShownMapGrows(n: Node, dot: Val, v: Values, w: Values)
    requires v != map[] && w != map[] && Agree(v, w, Visits(n))
    requires |PrintMap(v)| <= |PrintMap(w)| && Render(n, dot, v).Some?
    ensures Render(n, dot, w).Some?
    ensures |Render(n, dot, v).value| <= |Render(n, dot, w).value|
    ensures ShowsRoot(n, dot, v) && |PrintMap(v)| < |PrintMap(w)| ==>
              |Render(n, dot, v).value| < |Render(n, dot, w).value|
  {
    hide Agree, PrintMap;
    match n
    case Plain(_) =>
    case Action(e) => EvalCoincides(e, dot, v, w);
    case If(cond, thn, els) =>
      AgreeParts(v, w, ExprVisits(cond) + Visits(thn), Visits(els));
      AgreeParts(v, w, ExprVisits(cond), Visits(thn));
      EvalCoincides(cond, dot, v, w);
      if Truth(Eval(cond, dot, v).value, v) {
        ShownMapGrows(thn, dot, v, w);
      } else {
        ShownMapGrows(els, dot, v, w);
      }
    case With(subject, body, els) =>
      AgreeParts(v, w, ExprVisits(subject) + Visits(body), Visits(els));
      AgreeParts(v, w, ExprVisits(subject), Visits(body));
      EvalCoincides(subject, dot, v, w);
      var x := Eval(subject, dot, v).value;
      if Truth(x, v) {
        ShownMapGrows(body, x, v, w);
      } else {
        ShownMapGrows(els, dot, v, w);
      }
    case Skip =>
    case Then(first, second) =>
      AgreeParts(v, w, Visits(first), Visits(second));
      ShownMapGrows(first, dot, v, w);
      ShownMapGrows(second, dot, v, w);
  }

  /**
    The exact law for an extended map: a template that renders over `v` renders the same over a
    proper extension that agrees on its keys if and only if it does not show the whole map.
   */
  lemma {:induction false} CoincidenceExact(n: Node, v: Values, w: Values)
    requires v != map[] && Submap(v, w) && v != w && Agree(v, w, Visits(n))
    requires Render(n, Root, v).Some?
    ensures Render(n, Root, w) == Render(n, Root, v) <==> !ShowsRoot(n, Root, v)
  {
    var k :| k in v;
    assert w != map[];
    Coincidence(n, Root, v, w);
    LargerMapPrintsLonger(v, w);
    ShownMapGrows(n, Root, v, w);
  }

  /* ---------- a shown map can be read back ---------- */

  lemma SameHead(a: string, b: string, x: string, y: string)
    requires |a| == |x| && a + b == x + y
    ensures a == x && b == y
  {
    assert a == (a + b)[..|a|] && x == (x + y)[..|x|];
    assert b == (a + b)[|a|..] && y == (x + y)[|x|..];
  }

  /** Equal renderings of equally long maps that show the map show the same text for it. */
  lemma {:induction false} ShownMapRecovered(n: Node, dot: Val, v: Values, w: Values)
    requires v != map[] && w != map[] && Agree(v, w, Visits(n)) && |PrintMap(v)| == |PrintMap(w)|
    requires Render(n, dot, v).Some? && ShowsRoot(n, dot, v) && Render(n, dot, v) == Render(n, dot, w)
    ensures PrintMap(v) == PrintMap(w)
  {
    hide Agree, PrintMap;
    match n
    case Action(e) => EvalCoincides(e, dot, v, w);
    case If(cond, thn, els) =>
      AgreeParts(v, w, ExprVisits(cond) + Visits(thn), Visits(els));
      AgreeParts(v, w, ExprVisits(cond), Visits(thn));
      EvalCoincides(cond, dot, v, w);
      if Truth(Eval(cond, dot, v).value, v) {
        ShownMapRecovered(thn, dot, v, w);
      } else {
        ShownMapRecovered(els, dot, v, w);
      }
    case With(subject, body, els) =>
      AgreeParts(v, w, ExprVisits(subject) + Visits(body), Visits(els));
      AgreeParts(v, w, ExprVisits(subject), Visits(body));
      EvalCoincides(subject, dot, v, w);
      var x := Eval(subject, dot, v).value;
      if Truth(x, v) {
        ShownMapRecovered(body, x, v, w);
      } else {
        ShownMapRecovered(els, dot, v, w);
      }
    case Then(first, second) =>
      AgreeParts(v, w, Visits(first), Visits(second));
      ShownMapGrows(first, dot, v, w);
      ShownMapGrows(first, dot, w, v) by { AgreeSymmetric(v, w, Visits(first)); }
      SameHead(Render(first, dot, v).value, Render(second, dot, v).value,
               Render(first, dot, w).value, Render(second, dot, w).value);
      if ShowsRoot(first, dot, v) {
        ShownMapRecovered(first, dot, v, w);
      } else {
        ShownMapRecovered(second, dot, v, w);
      }
  }

  lemma AgreeSymmetric(v: Values, w: Values, keys: seq<string>)
    requires Agree(v, w, keys)
    ensures Agree(w, v, keys)
  {
  }

  predicate ColonFree(v: Values) { forall k :: k in v ==> ':' !in k }

  lemma ColonEndsKey(k: string, r: string, l: string, s: string)
    requires ':' !in k && ':' !in l && k + ":" + r == l + ":" + s
    ensures k == l && r == s
  {
    SplitAtSep(k, ':', r);
    SplitAtSep(l, ':', s);
    assert k == Split(k + [':'] + r, ':')[0] && l == Split(l + [':'] + s, ':')[0];
    assert k + ":" + r == k + (":" + r) && l + ":" + s == l + (":" + s);
    SameHead(k, ":" + r, l, ":" + s);
    SameHead(":", r, ":", s);
  }

  /** Two parts of one map with colon-free keys print alike only if they are the same part. */
  lemma {:induction false} PrintInjective(v: Values, w: Values, whole: Values)
    requires v != map[] && w != map[] && Submap(v, whole) && Submap(w, whole) && ColonFree(v) && ColonFree(w)
    requires PrintEntries(v) == PrintEntries(w)
    ensures v == w
    decreases |v|
  {
    var k, l := Least(v.Keys), Least(w.Keys);
    EntriesHead(v);
    EntriesHead(w);
    hide PrintEntries, Least;
    ColonEndsKey(k, v[k] + EntriesAfter(v, k), l, w[l] + EntriesAfter(w, l));
    SameHead(v[k], EntriesAfter(v, k), w[k], EntriesAfter(w, k));
    MapWithout(v, k);
    MapWithout(w, k);
    if |v| > 1 {
      SameHead(" ", PrintEntries(v - {k}), " ", PrintEntries(w - {k}));
      PrintInjective(v - {k}, w - {k}, whole);
    }
  }

  lemma {:induction false} EntriesHead(v: Values)
    requires v != map[]
    ensures var k := Least(v.Keys); PrintEntries(v) == k + ":" + (v[k] + EntriesAfter(v, k))
  {
    var k := Least(v.Keys);
    Associative(k + ":", v[k], EntriesAfter(v, k));
  }

  function EntriesAfter(v: Values, k: string): string
  {
    if |v| == 1 then "" else " " + PrintEntries(v - {k})
  }

  lemma MapWithout(v: Values, k: string)
    requires k in v
    ensures v == (v - {k})[k := v[k]]
    ensures |v - {k}| == |v| - 1 && (|v| == 1 <==> v - {k} == map[])
  {
    assert (v - {k}).Keys == v.Keys - {k};
  }

  /** A template that shows the map renders differently over any two different parts of one map. */
  lemma {:induction false} ShownMapsDiffer(n: Node, v: Values, w: Values, whole: Values)
    requires v != map[] && w != map[] && Agree(v, w, Visits(n))
    requires Submap(v, whole) && Submap(w, whole) && ColonFree(v) && ColonFree(w)
    requires Render(n, Root, v).Some? && ShowsRoot(n, Root, v) && Render(n, Root, v) == Render(n, Root, w)
    ensures v == w
  {
    hide Render, ShowsRoot, Agree, Submap, ColonFree, PrintEntries;
    AgreeSymmetric(v, w, Visits(n));
    Coincidence(n, Root, v, w);
    if |PrintMap(v)| <= |PrintMap(w)| {
      ShownMapGrows(n, Root, v, w);
    } else {
      ShownMapGrows(n, Root, w, v);
    }
    ShownMapRecovered(n, Root, v, w);
    SameHead("map[" + PrintEntries(v), "]", "map[" + PrintEntries(w), "]");
    SameHead("map[", PrintEntries(v), "map[", PrintEntries(w));
    PrintInjective(v, w, whole);
  }

  /** The dot at top level is the whole map, and no key is reported for it. */
  lemma DotEscapesReferencedKeys(v: Values, key: string, value: string)
    requires v != map[] && key !in v
    ensures ReferencedKeys(Parsed(Action(Dot))) == Some([])
    ensures RenderTemplate(Parsed(Action(Dot)), v) != RenderTemplate(Parsed(Action(Dot)), v[key := value])
  {
    CoincidenceExact(Action(Dot), v, v[key := value]);
  }

  /* ---------- a static check under which rendering cannot fail ---------- */

  datatype Kind = MapKind | StringKind | BoolKind | NoKind

  function KindOf(x: Val): Kind
  {
    match x case Root => MapKind case Str(_) => StringKind case Bool(_) => BoolKind
  }

  /** The kind an expression has when the dot has the given kind; NoKind when it must fail. */
  function ExprKind(e: Expr, dot: Kind): Kind
  {
    match e
    case Dot => dot
    case Field(_, rest) => if dot == MapKind && rest == [] then StringKind else NoKind
    case Literal(_) => StringKind
    case Eq(left, right) =>
      var l, r := ExprKind(left, dot), ExprKind(right, dot);
      if l == r && (l == StringKind || l == BoolKind) then BoolKind else NoKind
  }

  predicate WellKinded(n: Node, dot: Kind)
  {
    match n
    case Plain(_) => true
    case Action(e) => ExprKind(e, dot) != NoKind
    case If(cond, thn, els) => ExprKind(cond, dot) != NoKind && WellKinded(thn, dot) && WellKinded(els, dot)
    case With(subject, body, els) =>
      var k := ExprKind(subject, dot);
      k != NoKind && WellKinded(body, k) && WellKinded(els, dot)
    case Skip => true
    case Then(first, second) => WellKinded(first, dot) && WellKinded(second, dot)
  }

  /** No action can print the whole map, on any values. */
  predicate NeverShowsRoot(n: Node, dot: Kind)
  {
    match n
    case Plain(_) => true
    case Action(e) => ExprKind(e, dot) != MapKind
    case If(_, thn, els) => NeverShowsRoot(thn, dot) && NeverShowsRoot(els, dot)
    case With(subject, body, els) => NeverShowsRoot(body, ExprKind(subject, dot)) && NeverShowsRoot(els, dot)
    case Skip => true
    case Then(first, second) => NeverShowsRoot(first, dot) && NeverShowsRoot(second, dot)
  }

  lemma {:induction false} EvalHasKind(e: Expr, dot: Val, v: Values)
    ensures Eval(e, dot, v).Some? ==> KindOf(Eval(e, dot, v).value) == ExprKind(e, KindOf(dot))
    ensures ExprKind(e, KindOf(dot)) == NoKind ==> Eval(e, dot, v).None?
    ensures ExprKind(e, KindOf(dot)) != NoKind && Covers(v, ExprVisits(e)) ==> Eval(e, dot, v).Some?
  {
    match e
    case Dot =>
    case Field(name, _) => assert name in ExprVisits(e);
    case Literal(_) =>
    case Eq(left, right) =>
      EvalHasKind(left, dot, v);
      EvalHasKind(right, dot, v);
      hide Covers;
      if Covers(v, ExprVisits(e)) {
        CoversParts(v, ExprVisits(left), ExprVisits(right));
      }
  }

  lemma CoversParts(v: Values, a: seq<string>, b: seq<string>)
    requires Covers(v, a + b)
    ensures Covers(v, a) && Covers(v, b)
  {
    assert forall k :: k in a || k in b ==> k in a + b;
  }

  /** Every expression that is evaluated, on the branches these values take, has a kind. */
  predicate KindedAlong(n: Node, dot: Val, v: Values)
  {
    match n
    case Plain(_) => true
    case Action(e) => ExprKind(e, KindOf(dot)) != NoKind
    case If(cond, thn, els) =>
      var x := Eval(cond, dot, v);
      && ExprKind(cond, KindOf(dot)) != NoKind
      && (x.Some? ==> if Truth(x.value, v) then KindedAlong(thn, dot, v) else KindedAlong(els, dot, v))
    case With(subject, body, els) =>
      var x := Eval(subject, dot, v);
      && ExprKind(subject, KindOf(dot)) != NoKind
      && (x.Some? ==> if Truth(x.value, v) then KindedAlong(body, x.value, v) else KindedAlong(els, dot, v))
    case Skip => true
    case Then(first, second) => KindedAlong(first, dot, v) && KindedAlong(second, dot, v)
  }

  /** The exact law: over its reported keys a template renders iff it is kinded along the path taken. */
  lemma {:induction false} RenderExact(n: Node, dot: Val, v: Values)
    requires Covers(v, Visits(n))
    ensures Render(n, dot, v).Some? <==> KindedAlong(n, dot, v)
  {
    hide Covers, PrintMap;
    match n
    case Plain(_) =>
    case Action(e) => EvalHasKind(e, dot, v);
    case If(cond, thn, els) =>
      CoversParts(v, ExprVisits(cond) + Visits(thn), Visits(els));
      CoversParts(v, ExprVisits(cond), Visits(thn));
      EvalHasKind(cond, dot, v);
      RenderExact(thn, dot, v);
      RenderExact(els, dot, v);
    case With(subject, body, els) =>
      CoversParts(v, ExprVisits(subject) + Visits(body), Visits(els));
      CoversParts(v, ExprVisits(subject), Visits(body));
      EvalHasKind(subject, dot, v);
      var x := Eval(subject, dot, v);
      if x.Some? {
        RenderExact(body, x.value, v);
      }
      RenderExact(els, dot, v);
    case Skip =>
    case Then(first, second) =>
      CoversParts(v, Visits(first), Visits(second));
      RenderExact(first, dot, v);
      RenderExact(second, dot, v);
  }

  /** The static check is sound for every path. */
  lemma {:induction false} WellKindedAlong(n: Node, dot: Val, v: Values)
    requires WellKinded(n, KindOf(dot))
    ensures KindedAlong(n, dot, v)
  {
    match n
    case Plain(_) =>
    case Action(_) =>
    case If(_, thn, els) =>
      WellKindedAlong(thn, dot, v);
      WellKindedAlong(els, dot, v);
    case With(subject, body, els) =>
      EvalHasKind(subject, dot, v);
      var x := Eval(subject, dot, v);
      if x.Some? {
        WellKindedAlong(body, x.value, v);
      }
      WellKindedAlong(els, dot, v);
    case Skip =>
    case Then(first, second) =>
      WellKindedAlong(first, dot, v);
      WellKindedAlong(second, dot, v);
  }

  /** Progress: a well-kinded template renders over every map that defines its reported keys. */
  lemma {:induction false} Progress(n: Node, dot: Val, v: Values)
    requires WellKinded(n, KindOf(dot)) && Covers(v, Visits(n))
    ensures Render(n, dot, v).Some?
  {
    WellKindedAlong(n, dot, v);
    RenderExact(n, dot, v);
  }

  lemma {:induction false} NeverShowsSound(n: Node, dot: Val, v: Values)
    requires NeverShowsRoot(n, KindOf(dot))
    ensures !ShowsRoot(n, dot, v)
  {
    match n
    case Plain(_) =>
    case Action(e) => EvalHasKind(e, dot, v);
    case If(_, thn, els) =>
      NeverShowsSound(thn, dot, v);
      NeverShowsSound(els, dot, v);
    case With(subject, body, els) =>
      EvalHasKind(subject, dot, v);
      var x := Eval(subject, dot, v);
      if x.Some? {
        NeverShowsSound(body, x.value, v);
      }
      NeverShowsSound(els, dot, v);
    case Skip =>
    case Then(first, second) =>
      NeverShowsSound(first, dot, v);
      NeverShowsSound(second, dot, v);
  }

  /** Straight-line templates: no branch, so every action is executed on every map. */
  predicate StraightLine(n: Node)
  {
    match n
    case Plain(_) => true
    case Action(_) => true
    case If(_, _, _) => false
    case With(_, _, _) => false
    case Skip => true
    case Then(first, second) => StraightLine(first) && StraightLine(second)
  }

  /** Without branches the static check is exact, key by key and kind by kind. */
  lemma {:induction false} StraightLineExact(n: Node, v: Values)
    requires StraightLine(n) && Covers(v, Visits(n))
    ensures Render(n, Root, v).Some? <==> WellKinded(n, MapKind)
  {
    match n
    case Plain(_) =>
    case Action(e) => EvalHasKind(e, Root, v);
    case Skip =>
    case Then(first, second) =>
      CoversParts(v, Visits(first), Visits(second));
      StraightLineExact(first, v);
      StraightLineExact(second, v);
  }

  /** Templates made of text, unchained fields and conditionals on such fields. */
  predicate FieldsAndIfs(n: Node)
  {
    match n
    case Plain(_) => true
    case Action(e) => e.Field? && e.rest == []
    case If(cond, thn, els) => cond.Field? && cond.rest == [] && FieldsAndIfs(thn) && FieldsAndIfs(els)
    case With(_, _, _) => false
    case Skip => true
    case Then(first, second) => FieldsAndIfs(first) && FieldsAndIfs(second)
  }

  lemma {:induction false} FieldsAndIfsRender(n: Node, v: Values)
    requires FieldsAndIfs(n) && Covers(v, Visits(n))
    ensures Render(n, Root, v).Some?
    ensures WellKinded(n, MapKind) && NeverShowsRoot(n, MapKind)
  {
    FieldsAndIfsKinded(n);
    Progress(n, Root, v);
  }

  lemma {:induction false} FieldsAndIfsKinded(n: Node)
    requires FieldsAndIfs(n)
    ensures WellKinded(n, MapKind) && NeverShowsRoot(n, MapKind)
  {
    match n
    case Plain(_) =>
    case Action(_) =>
    case If(_, thn, els) =>
      FieldsAndIfsKinded(thn);
      FieldsAndIfsKinded(els);
    case Skip =>
    case Then(first, second) =>
      FieldsAndIfsKinded(first);
      FieldsAndIfsKinded(second);
  }

  /** Inside `with` the dot is a string: a field there fails although its key is reported and set. */
  lemma {:induction false} FieldInsideWithFails(v: Values)
    requires "a" in v && v["a"] != "" && "b" in v
    ensures var t := With(Field("a", []), Action(Field("b", [])), Skip);
            Visits(t) == ["a", "b"] && Covers(v, Visits(t)) && Render(t, Root, v).None?
  {
  }

  /** The check is conservative: an ill-kinded branch that is never taken does no harm. */
  lemma {:induction false} DeadBranchHarmless(v: Values)
    ensures var t := If(Literal(""), Action(Field("a", ["b"])), Skip);
            !WellKinded(t, MapKind) && Render(t, Root, v) == Some("")
  {
  }
}
