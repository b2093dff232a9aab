/** Virtual paths as the in-memory backends normalise them. */
module VirtualPaths {
  import opened Text
  import opened GlobPaths

  function Unrooted(value: string): string {
    if value != "" && value[0] == '/' then value[1..] else value
  }

  /** What path.Clean keeps of a rooted path without "..". */
  function Kept(parts: seq<string>): (kept: seq<string>)
    ensures forall part :: part in kept ==> part in parts && part != "" && part != "."
  {
    if parts == [] then []
    else (if parts[0] == "" || parts[0] == "." then [] else [parts[0]]) + Kept(parts[1..])
  }

  /** normalizeVirtual: the clean absolute path, or a refusal. */
  function NormalizeVirtual(value: string): Option<string> {
    if value == "" || '\0' in value || value[0] == '~' then None
    else
      var parts := Split(Unrooted(value), '/');
      if ".." in parts then None else Some("/" + Joined(Kept(parts), "/"))
  }

  lemma {:induction false} AllKept(parts: seq<string>)
    requires forall part :: part in parts ==> part != "" && part != "."
    ensures Kept(parts) == parts
  {
    if parts != [] {
      assert parts[0] in parts;
      assert forall part :: part in parts[1..] ==> part in parts;
      AllKept(parts[1..]);
    }
  }

  lemma {:induction false} JoinWithout(segments: seq<string>, x: char)
    requires x != '/' && forall segment :: segment in segments ==> x !in segment
    ensures x !in Joined(segments, "/")
  {
    if segments != [] {
      assert segments[0] in segments;
      if |segments| > 1 {
        JoinWithout(segments[1..], x);
      }
    }
  }

  /** Normalising is idempotent, so the clean paths are those it leaves alone. */
  lemma NormalizedIsClean(value: string)
    requires NormalizeVirtual(value).Some?
    ensures var name := NormalizeVirtual(value).value;
            NormalizeVirtual(name) == Some(name)
  {
    var parts := Split(Unrooted(value), '/');
    var kept := Kept(parts);
    var name := "/" + Joined(kept, "/");
    assert Unrooted(name) == Joined(kept, "/");
    SplitNoNew(Unrooted(value), '/', '\0');
    JoinWithout(kept, '\0');
    if kept == [] {
      assert Split("", '/') == [""];
      assert Kept([""]) == [];
    } else {
      SplitJoin(kept, '/');
      AllKept(kept);
    }
  }

  lemma SplitDoubled(a: string, b: string)
    requires '/' !in a && '/' !in b
    ensures Split(a + "//" + b, '/') == [a, "", b]
  {
    SplitAt(a, '/', "/" + b);
    SplitAt("", '/', b);
    SplitPlain(b, '/');
    assert a + "//" + b == a + ['/'] + ("/" + b) && "/" + b == "" + ['/'] + b;
  }

  /** Doubled slashes, for one, are not clean. */
  lemma DoubledSlash(a: string, b: string)
    requires Proper(a) && Proper(b) && '\0' !in a && '\0' !in b
    ensures NormalizeVirtual("/" + a + "//" + b) == Some("/" + a + "/" + b)
  {
    var value, parts := "/" + a + "//" + b, [a, "", b];
    assert Unrooted(value) == a + "//" + b;
    SplitDoubled(a, b);
    assert parts[1..] == ["", b] && parts[1..][1..] == [b] && [b][1..] == [];
    assert Kept([b]) == [b] + Kept([]);
    assert Kept(["", b]) == Kept([b]);
    assert Kept(parts) == [a] + Kept(["", b]) == [a, b];
    assert [a, b][1..] == [b];
    assert "/" + Joined([a, b], "/") == "/" + a + "/" + b;
  }
}
