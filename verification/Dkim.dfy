/** What signing and verifying share (middleware/authres/dkim). */
module Dkim {
  import opened Text
  import opened Strings
  import opened BodyCanonical
  import opened BodyWriters
  import opened Base64

  const FIELD_NAME: string := "DKIM-Signature"

  /** Nanoseconds in a second: times are in nanoseconds, and printed in seconds. */
  const NANOS: int := 1_000_000_000

  /** A SHA-256 digest. */
  type Digest = d: seq<Byte> | |d| == 32 witness seq(32, _ => 0)

  /** `canonicalizers`: the algorithm of a name. */
  function AlgorithmOf(name: string): Option<Algorithm> {
    if name == "simple" then Some(Simple) else if name == "relaxed" then Some(Relaxed) else None
  }

  function NameOf(alg: Algorithm): string {
    match alg case Simple => "simple" case Relaxed => "relaxed"
  }

  function FormatTagList(l: seq<string>): string {
    Join(l, ":")
  }

  function Stripped(parts: seq<string>): (r: seq<string>)
    ensures |r| == |parts|
  {
    if parts == [] then [] else [StripWhitespace(parts[0])] + Stripped(parts[1..])
  }

  /** `parseTagList`. */
  function ParseTagList(s: string): seq<string> {
    Stripped(Split(s, ':'))
  }

  predicate ListsFrom(keys: seq<string>) {
    exists i :: 0 <= i < |keys| && EqualFold(keys[i], "From")
  }

  /** `io.Copy` from a reader into a body canonicalizer, in chunks of any size, and `Close`. */
  method CopyBody(alg: Algorithm, body: string, hasher: Hasher)
    requires hasher.data == ""
    modifies hasher
    ensures hasher.data == Canonical(alg, body)
  {
    var rest := body;
    ghost var st, fed := Start(alg), "";
    match alg {
      case Simple =>
        var can := new SimpleBodyCanonicalizer(hasher);
        while rest != ""
          invariant fresh(can) && fresh(can.crlfFixer) && can.w == hasher && fed + rest == body
          invariant can.State(hasher.data) == st && Tracks(st, Simple, fed)
          decreases |rest|
        {
          var n :| 1 <= n <= |rest|;
          var chunk := rest[..n];
          var _ := can.Write(chunk);
          WriteTracks(st, Simple, fed, chunk);
          Halves(rest, n);
          ConcatAssoc(fed, chunk, rest[n..]);
          st, fed, rest := BodyCanonical.Write(st, chunk), fed + chunk, rest[n..];
        }
        can.Close();
        CloseTracks(st, Simple, fed);
      case Relaxed =>
        var can := new RelaxedBodyCanonicalizer(hasher);
        while rest != ""
          invariant fresh(can) && fresh(can.crlfFixer) && can.w == hasher && fed + rest == body
          invariant can.State(hasher.data) == st && Tracks(st, Relaxed, fed)
          decreases |rest|
        {
          var n :| 1 <= n <= |rest|;
          var chunk := rest[..n];
          var _ := can.Write(chunk);
          WriteTracks(st, Relaxed, fed, chunk);
          Halves(rest, n);
          ConcatAssoc(fed, chunk, rest[n..]);
          st, fed, rest := BodyCanonical.Write(st, chunk), fed + chunk, rest[n..];
        }
        can.Close();
        CloseTracks(st, Relaxed, fed);
    }
    assert fed + "" == fed;
  }
}
