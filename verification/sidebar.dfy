/** The side menu: which entry is highlighted for the current path. */
module Sidebar {
  import opened Text

  /** The menu's entries, in the order shown. */
  const Items: seq<string> :=
    ["/dashboard", "/clientes", "/expedientes", "/tipos-tramite", "/documentos-requeridos", "/pagos", "/configuracion"]

  /** An entry is highlighted on its own page and on every page below it. */
  predicate IsActive(currentPath: string, url: string) {
    currentPath == url || StartsWith(currentPath, url + "/")
  }

  /** A url of one path segment: a leading slash and no other. */
  predicate SingleSegment(u: string) {
    |u| >= 1 && u[0] == '/' && forall i :: 1 <= i < |u| ==> u[i] != '/'
  }

  /** The highlight is a match on a segment boundary: a page below the
      entry's path lights it, a path that merely shares its letters does not. */
  lemma ActiveOnBoundary(url: string, rest: string)
    requires url != ""
    ensures IsActive(url + "/" + rest, url)
    ensures rest != [] && rest[0] != '/' ==> !IsActive(url + rest, url)
  {
    assert url + "/" <= url + "/" + rest;
    if rest != [] && rest[0] != '/' {
      var p := url + rest;
      assert |url + "/"| > |p| || p[|url|] != '/';
    }
  }

  /** A single-segment url highlighted by a path is that path's first
      segment: it is as long as the path up to its second slash. */
  lemma ActiveSegment(p: string, u: string)
    requires SingleSegment(u) && IsActive(p, u)
    ensures |p| >= 1 && |u| == 1 + Find(p[1..], '/') && u == p[..|u|]
  {
    var q := p[1..];
    assert u <= p;
    assert forall k :: 0 <= k < |u| - 1 ==> q[k] == u[k + 1];
    if p != u {
      assert p[|u|] == '/';
      assert q[|u| - 1] == '/';
    }
  }

  /** Two single-segment urls highlighted by the same path are the same url. */
  lemma SingleSegmentsExclusive(p: string, a: string, b: string)
    requires SingleSegment(a) && SingleSegment(b)
    requires IsActive(p, a) && IsActive(p, b)
    ensures a == b
  {
    ActiveSegment(p, a);
    ActiveSegment(p, b);
  }

  lemma ItemsSingleSegment()
    ensures forall i :: 0 <= i < |Items| ==> SingleSegment(Items[i])
    ensures forall i, j :: 0 <= i < j < |Items| ==> Items[i] != Items[j]
  {
    forall i | 0 <= i < |Items| ensures SingleSegment(Items[i]) {
    }
    forall i, j | 0 <= i < j < |Items| ensures Items[i] != Items[j] {
      assert Items[i][1] != Items[j][1] || Items[i][2] != Items[j][2] || |Items[i]| != |Items[j]|;
    }
  }

  /** Whatever the path, at most one entry of the menu is highlighted. */
  lemma AtMostOneActive(p: string, i: nat, j: nat)
    requires i < |Items| && j < |Items|
    requires IsActive(p, Items[i]) && IsActive(p, Items[j])
    ensures i == j
  {
    ItemsSingleSegment();
    SingleSegmentsExclusive(p, Items[i], Items[j]);
  }

  /** The client pages light the clients entry; a look-alike path and the
      root light nothing. */
  lemma ActiveExamples()
    ensures IsActive("/clientes/abc", "/clientes")
    ensures !IsActive("/clientesX", "/clientes")
    ensures forall i :: 0 <= i < |Items| ==> !IsActive("/", Items[i])
  {
    assert "/clientes/" <= "/clientes/abc";
    ActiveOnBoundary("/clientes", "X");
    assert "/clientes" + "X" == "/clientesX";
    forall i | 0 <= i < |Items| ensures !IsActive("/", Items[i]) {
      assert |Items[i] + "/"| > 1;
    }
  }
}
