/** Frames: the variable bindings that the where-clauses of synchronizations receive,
    refine and return. */
module Frames {
  import opened Common

  /** A value a frame can bind. An absent binding stands for `undefined`. */
  datatype Value =
    | Null
    | Bool(b: bool)
    | Num(n: real)
    | Str(s: string)
    | List(items: seq<Value>)
    | Record(fields: map<string, Value>)

  /** A sync variable (a JavaScript symbol), named. */
  type Var = string

  type Frame = map<Var, Value>

  /** A concept query run through `frames.query`, as the frames it yields for one input
      frame. */
  type Query = Frame -> seq<Frame>

  /** `$[v]`, with `None` for `undefined`. */
  function Lookup(f: Frame, v: Var): (r: Option<Value>)
    ensures r.Some? <==> v in f
  {
    if v in f then Some(f[v]) else None
  }

  /** JavaScript truthiness. */
  predicate Truthy(v: Option<Value>) {
    match v
    case None => false
    case Some(x) =>
      match x
      case Null => false
      case Bool(b) => b
      case Num(n) => n != 0.0
      case Str(s) => s != ""
      case List(_) => true
      case Record(_) => true
  }

  /** `undefined` or `null`, the values `??` skips. */
  predicate Nullish(v: Option<Value>) {
    v.None? || v.value.Null?
  }

  /** `a ?? b`. */
  function Coalesce(a: Option<Value>, b: Option<Value>): Option<Value> {
    if Nullish(a) then b else a
  }

  /** A property read `v.name`: a record's field, and `undefined` on anything else. */
  function Field(v: Value, name: string): Option<Value> {
    if v.Record? && name in v.fields then Some(v.fields[name]) else None
  }

  /** `{ ...(frames[0] ?? {}) }`: the first frame, or the empty one. */
  function FirstOrEmpty(frames: seq<Frame>): Frame {
    if |frames| > 0 then frames[0] else map[]
  }

  /** `frames.query(...)`: every input frame's results, in input order. */
  function QueryAll(frames: seq<Frame>, q: Query): (r: seq<Frame>)
    ensures |r| == 0 <==> forall i :: 0 <= i < |frames| ==> |q(frames[i])| == 0
    ensures forall g :: g in r ==> exists i :: 0 <= i < |frames| && g in q(frames[i])
  {
    if frames == [] then []
    else
      var rest := QueryAll(frames[1..], q);
      assert forall i :: 1 <= i < |frames| ==> frames[i] == frames[1..][i - 1];
      q(frames[0]) + rest
  }
}
