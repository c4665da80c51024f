/**
 * A URL query string as a list of parameters: `name` alone or
 * `name=value`, separated by '&'.
 */
module Query {
  import opened Text

  datatype Param = Flag(name: string) | Field(name: string, value: string)

  function RenderParam(p: Param): string {
    match p
    case Flag(n) => n
    case Field(n, v) => n + "=" + v
  }

  /** A parameter read back: the text before the first '=' names it, the rest is its value. */
  function ParseParam(s: string): Param {
    var i := IndexOf(s, '=');
    if i == |s| then Flag(s) else Field(s[..i], s[i + 1..])
  }

  /** A name and a value that a query string can carry without escaping. */
  predicate Plain(p: Param) {
    && '&' !in p.name && '=' !in p.name
    && (p.Field? ==> '&' !in p.value)
  }

  predicate AllPlain(ps: seq<Param>) {
    forall k :: 0 <= k < |ps| ==> Plain(ps[k])
  }

  lemma AllPlainConcat(a: seq<Param>, b: seq<Param>)
    requires AllPlain(a) && AllPlain(b)
    ensures AllPlain(a + b)
  {
    forall k | 0 <= k < |a + b| ensures Plain((a + b)[k]) {
      if k >= |a| {
        assert (a + b)[k] == b[k - |a|];
      }
    }
  }

  lemma ParseRenderParam(p: Param)
    requires '=' !in p.name
    ensures ParseParam(RenderParam(p)) == p
  {
    var s := RenderParam(p);
    if p.Field? {
      assert s[|p.name|] == '=';
      assert IndexOf(s, '=') == |p.name|;
      assert s[..|p.name|] == p.name;
      assert s[|p.name| + 1..] == p.value;
    }
  }

  function RenderQuery(ps: seq<Param>): string {
    Join(seq(|ps|, k requires 0 <= k < |ps| => RenderParam(ps[k])), '&')
  }

  function ParseQuery(q: string): seq<Param> {
    var parts := Split(q, '&');
    seq(|parts|, k requires 0 <= k < |parts| => ParseParam(parts[k]))
  }

  /** One more parameter adds '&' and its rendering. */
  lemma RenderQueryAppend(ps: seq<Param>, p: Param)
    requires |ps| > 0
    ensures RenderQuery(ps + [p]) == RenderQuery(ps) + "&" + RenderParam(p)
  {
    var rs := seq(|ps|, k requires 0 <= k < |ps| => RenderParam(ps[k]));
    assert seq(|ps + [p]|, k requires 0 <= k < |ps + [p]| => RenderParam((ps + [p])[k])) == rs + [RenderParam(p)];
    JoinAppend(rs, RenderParam(p), '&');
  }

  /** A query of plain parameters is read back as the same parameters, in the same order. */
  lemma QueryRoundTrip(ps: seq<Param>)
    requires |ps| > 0
    requires AllPlain(ps)
    ensures ParseQuery(RenderQuery(ps)) == ps
  {
    var rs := seq(|ps|, k requires 0 <= k < |ps| => RenderParam(ps[k]));
    forall k | 0 <= k < |rs| ensures '&' !in rs[k] {
      assert '&' !in ps[k].name;
    }
    SplitJoin(rs, '&');
    forall k | 0 <= k < |ps| ensures ParseParam(rs[k]) == ps[k] {
      ParseRenderParam(ps[k]);
    }
  }
}
