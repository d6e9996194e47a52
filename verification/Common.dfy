/** Shared vocabulary: options, publish requests and the string helpers the service uses. */
module Common {

  datatype Option<+T> = None | Some(value: T)

  /** `redisstreams.PublishRequest`. */
  datatype Request = Request(
    stream: string,
    eventType: string,
    sender: string,
    recipient: string,
    priority: string,
    payload: string,
    ttlSec: int)

  /** ASCII white space, the part of `unicode.IsSpace` that can occur in single bytes. */
  predicate IsSpace(ch: char) {
    ch == ' ' || ch == '\t' || ch == '\n' || ch == '\r' || ch == '\U{000B}' || ch == '\U{000C}'
  }

  /** The blank and the five control characters from tab to carriage return. */
  lemma SpaceExactly(ch: char)
    ensures IsSpace(ch) <==> ch as int == 32 || 9 <= ch as int <= 13
  {
  }

  function TrimLeft(s: string): (t: string)
    ensures |t| <= |s| && (t == "" || !IsSpace(t[0]))
    ensures forall ch :: ch in t ==> ch in s
  {
    if s != "" && IsSpace(s[0]) then TrimLeft(s[1..]) else s
  }

  function TrimRight(s: string): (t: string)
    ensures |t| <= |s| && t == s[..|t|]
    ensures t == "" || !IsSpace(t[|t| - 1])
  {
    if s != "" && IsSpace(s[|s| - 1]) then TrimRight(s[..|s| - 1]) else s
  }

  /** `strings.TrimSpace`. */
  function Trim(s: string): (t: string)
    ensures |t| <= |s|
    ensures t == "" || (!IsSpace(t[0]) && !IsSpace(t[|t| - 1]))
    ensures forall ch :: ch in t ==> ch in s
  {
    TrimRight(TrimLeft(s))
  }

  /** A name as the service keeps it: trimmed and not blank. */
  predicate IsName(s: string) {
    s != "" && Trim(s) == s
  }

  lemma TightIsName(s: string)
    requires s != "" && !IsSpace(s[0]) && !IsSpace(s[|s| - 1])
    ensures IsName(s)
  {
  }

  /** `config.IsStreamAllowed`: an empty list allows every stream. */
  predicate IsAllowed(allowed: seq<string>, stream: string) {
    allowed == [] || stream in allowed
  }

  predicate AllSpace(s: string) {
    forall i :: 0 <= i < |s| ==> IsSpace(s[i])
  }

  lemma {:induction false} TrimLeftStrips(pre: string, rest: string)
    requires AllSpace(pre) && (rest == "" || !IsSpace(rest[0]))
    ensures TrimLeft(pre + rest) == rest
  {
    if pre == "" {
      assert pre + rest == rest;
    } else {
      TrimLeftStrips(pre[1..], rest);
      assert (pre + rest)[1..] == pre[1..] + rest;
    }
  }

  lemma {:induction false} TrimRightStrips(rest: string, post: string)
    requires AllSpace(post) && (rest == "" || !IsSpace(rest[|rest| - 1]))
    ensures TrimRight(rest + post) == rest
  {
    if post == "" {
      assert rest + post == rest;
    } else {
      TrimRightStrips(rest, post[..|post| - 1]);
      assert (rest + post)[..|rest + post| - 1] == rest + post[..|post| - 1];
    }
  }

  /** Trimming removes exactly the white space at both ends. */
  lemma TrimStrips(pre: string, core: string, post: string)
    requires AllSpace(pre) && AllSpace(post) && core != "" && !IsSpace(core[0]) && !IsSpace(core[|core| - 1])
    ensures Trim(pre + core + post) == core && Trim(pre) == ""
  {
    assert pre + core + post == pre + (core + post);
    TrimLeftStrips(pre, core + post);
    TrimRightStrips(core, post);
    TrimLeftStrips(pre, "");
    assert pre + "" == pre;
  }

  lemma TrimIdempotent(s: string)
    ensures Trim(Trim(s)) == Trim(s)
  {
  }
}
