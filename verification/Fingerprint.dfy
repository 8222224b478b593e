// The keys the persisted stores are indexed by. Both quarantines and the
// recognition cache treat a key as standing for one file in one state, so the
// key text must determine the path and the fingerprint.
module Fingerprint {
  import opened Text

  datatype Fingerprint = Fingerprint(extractorVersion: nat, len: nat, modifiedNs: Option<nat>)

  function ModifiedText(m: Option<nat>): string {
    match m
    case None => "-"
    case Some(ns) => Dec(ns)
  }

  function CacheKey(path: string, f: Fingerprint): string {
    "v" + Dec(f.extractorVersion) + ":" + path + ":" + Dec(f.len) + ":" + ModifiedText(f.modifiedNs)
  }

  datatype OcrKind = ImageOnlyPdf | ScreenshotImage {
    function Name(): string {
      match this
      case ImageOnlyPdf => "image-only-pdf"
      case ScreenshotImage => "screenshot-image"
    }
  }

  datatype OcrCandidate = OcrCandidate(path: string, kind: OcrKind, fingerprint: Fingerprint)

  function QueueKey(c: OcrCandidate): string {
    c.kind.Name() + ":" + CacheKey(c.path, c.fingerprint)
  }

  /** A colon-free text in front of a colon can be read off. */
  lemma FirstColon(a: string, x: string, b: string, y: string)
    requires Absent(a, ':') && Absent(b, ':')
    requires a + ":" + x == b + ":" + y
    ensures a == b && x == y
  {
    var s := a + ":" + x;
    assert s[|a|] == ':' && s[|b|] == ':';
    assert forall i :: 0 <= i < |a| ==> s[i] == a[i];
    assert forall i :: 0 <= i < |b| ==> s[i] == b[i];
    assert a == s[..|a|] && b == s[..|b|];
    assert x == s[|a| + 1..] && y == s[|b| + 1..];
  }

  /** A colon-free text behind a colon can be read off. */
  lemma LastColon(x: string, a: string, y: string, b: string)
    requires Absent(a, ':') && Absent(b, ':')
    requires x + ":" + a == y + ":" + b
    ensures x == y && a == b
  {
    var s := x + ":" + a;
    assert s[|x|] == ':' && s[|y|] == ':';
    assert forall i :: 0 <= i < |a| ==> s[|x| + 1 + i] == a[i];
    assert forall i :: 0 <= i < |b| ==> s[|y| + 1 + i] == b[i];
    assert |x| == |y|;
    assert x == s[..|x|] && y == s[..|y|];
    assert a == s[|x| + 1..] && b == s[|y| + 1..];
  }

  lemma ModifiedInjective(m: Option<nat>, n: Option<nat>)
    ensures Absent(ModifiedText(m), ':')
    ensures ModifiedText(m) == ModifiedText(n) ==> m == n
  {
    if m.Some? && n.Some? && ModifiedText(m) == ModifiedText(n) {
      DecInjective(m.value, n.value);
    }
    assert m.Some? ==> IsDigit(ModifiedText(m)[0]);
    assert n.Some? ==> IsDigit(ModifiedText(n)[0]);
  }

  /** A cache key names one path in one state, even when the path holds colons
      or digits of its own. */
  lemma CacheKeyInjective(path: string, f: Fingerprint, path': string, f': Fingerprint)
    ensures CacheKey(path, f) == CacheKey(path', f') <==> path == path' && f == f'
  {
    if CacheKey(path, f) == CacheKey(path', f') {
      hide Dec;
      ModifiedInjective(f.modifiedNs, f'.modifiedNs);
      ModifiedInjective(f'.modifiedNs, f.modifiedNs);
      var v, v' := Dec(f.extractorVersion), Dec(f'.extractorVersion);
      var l, l' := Dec(f.len), Dec(f'.len);
      LastColon("v" + v + ":" + path + ":" + l, ModifiedText(f.modifiedNs),
                "v" + v' + ":" + path' + ":" + l', ModifiedText(f'.modifiedNs));
      LastColon("v" + v + ":" + path, l, "v" + v' + ":" + path', l');
      FirstColon("v" + v, path, "v" + v', path');
      assert v == ("v" + v)[1..] && v' == ("v" + v')[1..];
      DecInjective(f.extractorVersion, f'.extractorVersion);
      DecInjective(f.len, f'.len);
    }
  }

  lemma QueueKeyInjective(c: OcrCandidate, d: OcrCandidate)
    ensures QueueKey(c) == QueueKey(d) <==> c == d
  {
    hide CacheKey;
    if QueueKey(c) == QueueKey(d) {
      KindNames(c.kind, d.kind);
      hide OcrKind.Name;
      FirstColon(c.kind.Name(), CacheKey(c.path, c.fingerprint), d.kind.Name(), CacheKey(d.path, d.fingerprint));
      CacheKeyInjective(c.path, c.fingerprint, d.path, d.fingerprint);
    }
  }

  lemma KindNames(a: OcrKind, b: OcrKind)
    ensures Absent(a.Name(), ':') && (a.Name() == b.Name() ==> a == b)
    ensures Absent(b.Name(), ':')
  {
    assert "image-only-pdf"[0] != "screenshot-image"[0];
  }
}
