/** Instance names: the validation pattern, the store key that holds an
    instance's record, the name recovered from such a key, and the external
    endpoints derived from a name. */
module Names {

  /** Prefix of every instance record key in the store. */
  const ServerKeyPrefix: string := "servers:"

  /** Key of the persisted port counter. */
  const NextPortKey: string := "next_port"

  /** Path prefix under which instances are exposed through the proxy. */
  const RoutePrefix: string := "/mcs/"

  /** One character of the class `[a-zA-Z0-9-_]`; the `-` after the range
      `0-9` is a literal dash. */
  predicate IsNameChar(c: char)
  {
    ('a' <= c <= 'z') || ('A' <= c <= 'Z') || ('0' <= c <= '9') || c == '-' || c == '_'
  }

  /** The anchored test `^[a-zA-Z0-9-_]+$`, matched left to right: one
      character of the class, then either the end of input or more of them. */
  predicate ValidName(s: string)
  {
    |s| > 0 && IsNameChar(s[0]) && (|s| == 1 || ValidName(s[1..]))
  }

  /** The pattern accepts exactly the non-empty strings made of letters,
      digits, dashes and underscores. */
  lemma {:induction false} ValidNameIff(s: string)
    ensures ValidName(s) <==> |s| > 0 && forall i :: 0 <= i < |s| ==> IsNameChar(s[i])
  {
    if |s| > 1 {
      ValidNameIff(s[1..]);
      if forall i :: 0 <= i < |s| ==> IsNameChar(s[i]) {
        assert forall i :: 0 <= i < |s[1..]| ==> IsNameChar(s[1..][i]) by {
          forall i | 0 <= i < |s[1..]| ensures IsNameChar(s[1..][i]) {
            assert s[1..][i] == s[i + 1];
          }
        }
      }
      if ValidName(s) {
        forall i | 0 <= i < |s| ensures IsNameChar(s[i]) {
          if i > 0 { assert s[i] == s[1..][i - 1]; }
        }
      }
    }
  }

  /** A valid name contains neither the key separator `:` nor `/`, so it
      neither splits a store key nor escapes its proxy path. */
  lemma ValidNameHasNoSeparators(s: string)
    requires ValidName(s)
    ensures ':' !in s && '/' !in s
  {
    ValidNameIff(s);
  }

  /** The store key `servers:<name>` holding an instance's record. */
  function ServerKey(name: string): string
  {
    ServerKeyPrefix + name
  }

  /** Keys enumerated by the pattern `servers:*`. */
  predicate HasServerPrefix(key: string)
  {
    |key| >= |ServerKeyPrefix| && key[..|ServerKeyPrefix|] == ServerKeyPrefix
  }

  /** The text before the first `:` of `s` (all of `s` when it has none). */
  function UpToColon(s: string): (r: string)
    ensures |r| <= |s| && r == s[..|r|]
    ensures ':' !in r
    ensures |r| < |s| ==> s[|r|] == ':'
  {
    if s == [] || s[0] == ':' then [] else [s[0]] + UpToColon(s[1..])
  }

  /** `key.split(':')[1]`: for a key starting `servers:`, the second
      `:`-separated field is the text after that prefix up to the next `:`. */
  function NameOfKey(key: string): string
    requires HasServerPrefix(key)
  {
    UpToColon(key[|ServerKeyPrefix|..])
  }

  /** A key is canonical when it is `servers:` followed by a colon-free name;
      these are exactly the keys that `NameOfKey` inverts. */
  predicate CanonicalKey(key: string)
  {
    HasServerPrefix(key) && ':' !in key[|ServerKeyPrefix|..]
  }

  /** Recovering the name from its key gives the name back whenever the name
      has no `:`, in particular for every valid name. */
  lemma NameOfKeyInverts(name: string)
    requires ':' !in name
    ensures CanonicalKey(ServerKey(name))
    ensures NameOfKey(ServerKey(name)) == name
  {
    var k := ServerKey(name);
    assert k[|ServerKeyPrefix|..] == name;
    assert k[..|ServerKeyPrefix|] == ServerKeyPrefix;
    assert UpToColon(name) == name;
  }

  /** Conversely, a canonical key is the key of the name recovered from it. */
  lemma KeyOfNameInverts(key: string)
    requires CanonicalKey(key)
    ensures ':' !in NameOfKey(key)
    ensures NameOfKey(key) == key[|ServerKeyPrefix|..]
    ensures ServerKey(NameOfKey(key)) == key
  {
    var rest := key[|ServerKeyPrefix|..];
    assert UpToColon(rest) == rest;
    assert key == key[..|ServerKeyPrefix|] + rest;
  }

  /** The proxy path `/mcs/<name>`. */
  function ApiEndpoint(name: string): string
  {
    RoutePrefix + name
  }

  /** The streaming endpoint `/mcs/<name>/sse`. */
  function SseEndpoint(name: string): string
  {
    ApiEndpoint(name) + "/sse"
  }

  /** Distinct names have distinct proxy paths. */
  lemma ApiEndpointInjective(a: string, b: string)
    requires ApiEndpoint(a) == ApiEndpoint(b)
    ensures a == b
  {
    assert a == ApiEndpoint(a)[|RoutePrefix|..];
    assert b == ApiEndpoint(b)[|RoutePrefix|..];
  }

}
