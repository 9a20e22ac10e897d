/** Development-mode content polling: a 32-bit string hash of the page's
    content, and a detector that reloads the page when the hash changes. */
module ContentHotReload {
  import opened Values
  import opened Numerals

  /** A JavaScript string is a sequence of UTF-16 code units; `charCodeAt`
      gives one of them. */
  type CodeUnit = c: int | 0 <= c < 0x1_0000

  const TWO_32: int := 0x1_0000_0000
  const TWO_31: int := 0x8000_0000

  predicate IsInt32(x: int)
  {
    -TWO_31 <= x < TWO_31
  }

  /** ECMAScript's ToInt32 on an integer: reduce modulo 2^32 into the
      signed range. */
  function ToInt32(x: int): (r: int)
    ensures IsInt32(r)
    ensures (x - r) % TWO_32 == 0
    ensures IsInt32(x) ==> r == x
  {
    var m := x % TWO_32;
    if m >= TWO_31 then m - TWO_32 else m
  }

  /** Numbers congruent modulo 2^32 have the same ToInt32. */
  lemma ToInt32Congruent(a: int, b: int)
    requires (a - b) % TWO_32 == 0
    ensures ToInt32(a) == ToInt32(b)
  {
    var k := (a - b) / TWO_32;
    assert a == b + k * TWO_32;
    assert a % TWO_32 == b % TWO_32;
  }

  /** `h << 5`: JavaScript shifts the 32-bit value and wraps. */
  function ShiftLeft5(h: int): int
  {
    ToInt32(h * 32)
  }

  /** One turn of the loop: `hash = (hash << 5) - hash + char`, exact in a
      double for 32-bit `hash`, then `hash = hash & hash`, which is ToInt32.
      The shift's wrap-around does not matter once the sum is wrapped again:
      the step is `ToInt32(31 * h + c)`. */
  function HashStep(h: int, c: CodeUnit): (r: int)
    ensures IsInt32(r)
    ensures r == ToInt32(31 * h + c)
  {
    var sh := ShiftLeft5(h);
    assert (h * 32 - sh) % TWO_32 == 0;
    assert (sh - h + c) - (31 * h + c) == -(h * 32 - sh);
    ToInt32Congruent(sh - h + c, 31 * h + c);
    ToInt32(sh - h + c)
  }

  /** The hash of a string: the loop's value after the whole string, from 0. */
  function HashOf(s: seq<CodeUnit>): int
  {
    if s == [] then 0 else HashStep(HashOf(s[..|s| - 1]), s[|s| - 1])
  }

  /** The code units read as the digits of a number in base 31, without any
      wrap-around. */
  function Base31(s: seq<CodeUnit>): int
  {
    if s == [] then 0 else 31 * Base31(s[..|s| - 1]) + s[|s| - 1]
  }

  /** Adding a multiple of 2^32 does not change ToInt32. */
  lemma ToInt32AddMultiple(b: int, k: int)
    ensures ToInt32(b + k * TWO_32) == ToInt32(b)
  {
    ToInt32Congruent(b + k * TWO_32, b);
  }

  /** Wrapping before multiplying by 31 and adding changes nothing once the
      result is wrapped. */
  lemma WrapTimes31(x: int, c: int)
    ensures ToInt32(31 * ToInt32(x) + c) == ToInt32(31 * x + c)
  {
    var y := ToInt32(x);
    var k := (x - y) / TWO_32;
    assert x == y + k * TWO_32;
    assert 31 * x + c == (31 * y + c) + (31 * k) * TWO_32;
    ToInt32AddMultiple(31 * y + c, 31 * k);
  }

  /** The hash is the base-31 value of the string, wrapped to 32 bits once at
      the end: the familiar `s[0]*31^(n-1) + ... + s[n-1]` string hash. */
  lemma {:induction false} HashIsBase31(s: seq<CodeUnit>)
    ensures HashOf(s) == ToInt32(Base31(s))
  {
    if s != [] {
      var p, c := s[..|s| - 1], s[|s| - 1];
      HashIsBase31(p);
      WrapTimes31(Base31(p), c);
    }
  }

  /** `hash.toString(16)`. */
  function Render(h: int): string
  {
    ToStringBase(h, 16)
  }

  /** `hashContent`: `""` for falsy content, otherwise the loop over the code
      units from 0, rendered in base 16. */
  method HashContent(content: Option<seq<CodeUnit>>) returns (r: string)
    ensures content.None? ==> r == ""
    ensures content.Some? ==> r == Render(HashOf(content.value))
    ensures content.Some? ==> r == Render(ToInt32(Base31(content.value)))
    ensures content.Some? ==> r != ""
  {
    if content.None? {
      return "";
    }
    var contentStr := content.value;
    var hash := 0;
    for i := 0 to |contentStr|
      invariant hash == HashOf(contentStr[..i])
    {
      var code := contentStr[i];
      hash := ShiftLeft5(hash) - hash + code;
      hash := ToInt32(hash);
      assert contentStr[..i + 1][..i] == contentStr[..i];
    }
    assert contentStr[..|contentStr|] == contentStr;
    HashIsBase31(contentStr);
    ToStringBaseSign(hash, 16);
    r := Render(hash);
  }

  /** Pages that are polled: all but no path, the home page, and the API
      routes. `/api` itself, without the trailing slash, is polled. */
  predicate IsContentPath(path: string)
    ensures IsContentPath(path) ==> |path| >= 1 && path != "/"
    ensures |path| >= 5 && path[..5] == "/api/" ==> !IsContentPath(path)
    ensures !IsContentPath(path) && path != "" && path != "/" ==> |path| >= 5 && path[..5] == "/api/"
  {
    !(path == "" || path == "/" || StartsWith(path, "/api/"))
  }

  /** How the content query settles: with the content (`None` when it is
      falsy), or rejected. */
  datatype Query = Resolved(content: Option<seq<CodeUnit>>) | Rejected

  /** The closure state `currentContentHash` and `isFirstLoad`. */
  class ContentWatcher {
    var currentContentHash: string
    var isFirstLoad: bool

    constructor ()
      ensures currentContentHash == "" && isFirstLoad
    {
      currentContentHash := "";
      isFirstLoad := true;
    }

    /** The query's `then` callback: on a first load only remember the hash;
        otherwise reload when both hashes are non-empty and differ. Either
        way the new hash is remembered. */
    method OnContent(newHash: string) returns (reload: bool)
      modifies this
      ensures currentContentHash == newHash && !isFirstLoad
      ensures old(isFirstLoad) ==> !reload
      ensures !old(isFirstLoad) ==>
                (reload <==> newHash != "" && old(currentContentHash) != ""
                             && newHash != old(currentContentHash))
    {
      if isFirstLoad {
        currentContentHash := newHash;
        isFirstLoad := false;
        return false;
      }
      reload := newHash != "" && currentContentHash != "" && newHash != currentContentHash;
      currentContentHash := newHash;
    }

    /** `checkContentUpdates` with the query's outcome given: skipped paths
        issue no query, a rejected query changes nothing. */
    method CheckContentUpdates(path: string, query: Query) returns (queried: bool, reload: bool)
      modifies this
      ensures queried == IsContentPath(path)
      ensures !queried || query.Rejected? ==> !reload && unchanged(this)
      ensures queried && query.Resolved? ==>
                !isFirstLoad
                && currentContentHash == (if query.content.Some?
                                          then Render(ToInt32(Base31(query.content.value)))
                                          else "")
                && (old(isFirstLoad) ==> !reload)
                && (!old(isFirstLoad) ==>
                      (reload <==> currentContentHash != "" && old(currentContentHash) != ""
                                   && currentContentHash != old(currentContentHash)))
    {
      queried := IsContentPath(path);
      if !queried {
        return false, false;
      }
      match query
      case Rejected => reload := false;
      case Resolved(content) =>
        var newHash := HashContent(content);
        reload := OnContent(newHash);
    }

    /** The route guard `afterEach`: the next check counts as a first load. */
    method AfterEach()
      modifies this`isFirstLoad
      ensures isFirstLoad
    {
      isFirstLoad := true;
    }
  }

  /** Equal wrapped hashes render to the same text and different ones to
      different texts, so comparing the rendered hashes compares the values. */
  lemma RenderedHashEquality(a: seq<CodeUnit>, b: seq<CodeUnit>)
    ensures Render(ToInt32(Base31(a))) == Render(ToInt32(Base31(b))) <==>
              ToInt32(Base31(a)) == ToInt32(Base31(b))
  {
    ToStringBaseInjective(ToInt32(Base31(a)), ToInt32(Base31(b)), 16);
  }

  /** Two polls of a content page, both answered, the second not a first
      load: the second reloads exactly when the wrapped hashes of the two
      contents differ, so the same content twice never reloads. */
  method PollTwice(w: ContentWatcher, path: string, a: seq<CodeUnit>, b: seq<CodeUnit>)
    returns (first: bool, second: bool)
    requires IsContentPath(path)
    modifies w
    ensures second <==> ToInt32(Base31(a)) != ToInt32(Base31(b))
    ensures a == b ==> !second
    ensures w.currentContentHash == Render(ToInt32(Base31(b))) && !w.isFirstLoad
  {
    var q1;
    q1, first := w.CheckContentUpdates(path, Resolved(Some(a)));
    var q2;
    q2, second := w.CheckContentUpdates(path, Resolved(Some(b)));
    ToStringBaseSign(ToInt32(Base31(a)), 16);
    ToStringBaseSign(ToInt32(Base31(b)), 16);
    RenderedHashEquality(a, b);
  }
}
