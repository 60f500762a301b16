/** M-Lab host names, `[<prefix>.]mlab<N>.<site>.measurement-lab.org` (`assert_mlab_hostname`,
  * `node_and_site`). */
module Hostname {
  import opened Wrappers
  import opened Strings

  const DOMAIN: string := ".measurement-lab.org"

  /** `assert_mlab_hostname` raises `AssertionError('Bad hostname: ...')`. */
  datatype HostError = BadHostname(hostname: string)

  predicate IsLower(c: char) {
    'a' <= c <= 'z'
  }

  /** `mlab[1-9]`. */
  predicate IsNode(node: string) {
    |node| == 5 && node[..4] == "mlab" && '1' <= node[4] <= '9'
  }

  /** `[a-z]{3}[0-9][0-9t]`: three letters, a digit, and a digit or `t`. */
  predicate IsSite(site: string) {
    && |site| == 5
    && IsLower(site[0]) && IsLower(site[1]) && IsLower(site[2])
    && IsDigitChar(site[3])
    && (IsDigitChar(site[4]) || site[4] == 't')
  }

  /** A node and a site, as `node_and_site` returns them. */
  predicate IsNodeAndSite(labels: (string, string)) {
    match labels
    case (node, site) => IsNode(node) && IsSite(site)
  }

  /** The fixed part of every M-Lab host name. */
  function MlabName(node: string, site: string): string {
    node + "." + site + DOMAIN
  }

  const NAME_LENGTH: nat := 31

  /** `mlab[1-9]\.[a-z]{3}[0-9][0-9t]\.measurement-lab\.org`, matched by a whole string. */
  predicate IsMlabName(s: string) {
    |s| == NAME_LENGTH && IsNode(s[..5]) && s[5] == '.' && IsSite(s[6..11]) && s[11..] == DOMAIN
  }

  /** What may precede the fixed part: nothing, or `.*\.` (where `.` does not match a newline). */
  predicate IsPrefix(p: string) {
    p == [] || (p[|p| - 1] == '.' && '\n' !in p)
  }

  /** `^(.*\.)?<name>$` with `$` at the very end of `s`. */
  predicate MatchesToEnd(s: string) {
    |s| >= NAME_LENGTH && IsPrefix(s[..|s| - NAME_LENGTH]) && IsMlabName(s[|s| - NAME_LENGTH..])
  }

  /** `re.match(r'^(.*\.)?mlab[1-9]\.[a-z]{3}[0-9][0-9t]\.measurement-lab\.org$', h)`. Python's
    * `$` also matches just before a newline that ends the string. */
  predicate IsMlabHostname(h: string) {
    MatchesToEnd(h) || (|h| > 0 && h[|h| - 1] == '\n' && MatchesToEnd(h[..|h| - 1]))
  }

  /** `assert_mlab_hostname`: the host name itself when it matches, an assertion failure otherwise. */
  function AssertMlabHostname(h: string): (r: Result<string, HostError>)
    ensures r.Ok? ==> r.value == h
  {
    if IsMlabHostname(h) then Ok(h) else Err(BadHostname(h))
  }

  /** The text a matching host name ends with, before any final newline. */
  function Body(h: string): string
    requires IsMlabHostname(h)
  {
    if MatchesToEnd(h) then h else h[..|h| - 1]
  }

  /** `node_and_site`: the 4th-last and 3rd-last `.`-separated labels of a valid host name. */
  function NodeAndSite(h: string): (r: Result<(string, string), HostError>)
    ensures r.Err? <==> !IsMlabHostname(h)
    ensures r.Err? ==> r.error == BadHostname(h)
  {
    match AssertMlabHostname(h)
    case Err(e) => Err(e)
    case Ok(_) =>
      NodeAndSiteLabels(h);
      var names := Split(h, '.');
      Ok((names[|names| - 4], names[|names| - 3]))
  }

  /** What `node_and_site` returns is a valid node and site. */
  lemma NodeAndSiteValid(h: string)
    requires NodeAndSite(h).Ok?
    ensures IsNodeAndSite(NodeAndSite(h).value)
  {
    NodeAndSiteLabels(h);
  }

  lemma MlabNameParts(node: string, site: string)
    requires IsNode(node) && IsSite(site)
    ensures IsMlabName(MlabName(node, site))
    ensures MlabName(node, site)[..5] == node && MlabName(node, site)[6..11] == site
  {
    var s := MlabName(node, site);
    assert s[..5] == node;
    assert s[6..11] == site;
    assert s[11..] == DOMAIN;
  }

  lemma NoDotInLabels(node: string, site: string)
    requires IsNode(node) && IsSite(site)
    ensures '.' !in node && '.' !in site
  {
    assert node == node[..4] + [node[4]];
  }

  /** `<node>.<site>.measurement-lab.org<tail>`, regrouped around its first dot. */
  lemma DomainLabels(node: string, site: string, tail: string)
    ensures MlabName(node, site) + tail
         == node + ['.'] + (site + ['.'] + "measurement-lab" + ['.'] + ("org" + tail))
  {
    var m, o := "measurement-lab", "org";
    calc {
      MlabName(node, site) + tail;
      node + "." + site + DOMAIN + tail;
      { assert DOMAIN == ['.'] + m + ['.'] + o; }
      node + ['.'] + site + (['.'] + m + ['.'] + o) + tail;
      node + ['.'] + (site + ['.'] + m + ['.'] + (o + tail));
    }
  }

  /** The labels of `<node>.<site>.measurement-lab.org<tail>`. */
  lemma LabelsOfMlabName(node: string, site: string, tail: string)
    requires IsNode(node) && IsSite(site)
    requires tail == "" || tail == "\n"
    ensures var names := Split(MlabName(node, site) + tail, '.');
      |names| == 4 && names[0] == node && names[1] == site
  {
    var org := "org" + tail;
    var rest := site + ['.'] + "measurement-lab" + ['.'] + org;
    assert DOMAIN == ['.'] + "measurement-lab" + ['.'] + "org";
    DomainLabels(node, site, tail);
    NoDotInLabels(node, site);
    assert '.' !in "measurement-lab" && '.' !in org;
    SplitThree(site, "measurement-lab", org, '.');
    SplitNoSep(node, '.');
    SplitConcat(node, '.', rest);
  }

  /** The labels of `<prefix><node>.<site>.measurement-lab.org<tail>` end with node and site. */
  lemma LabelsOfName(prefix: string, node: string, site: string, tail: string)
    requires IsPrefix(prefix) && IsNode(node) && IsSite(site)
    requires tail == "" || tail == "\n"
    ensures var names := Split(prefix + MlabName(node, site) + tail, '.');
      |names| >= 4 && names[|names| - 4] == node && names[|names| - 3] == site
  {
    var core := MlabName(node, site) + tail;
    LabelsOfMlabName(node, site, tail);
    assert prefix + MlabName(node, site) + tail == prefix + core;
    if prefix == [] {
      assert prefix + core == core;
    } else {
      var q := prefix[..|prefix| - 1];
      assert prefix + core == q + ['.'] + core;
      SplitConcat(q, '.', core);
    }
  }

  lemma MlabNameOfMatch(s: string)
    requires IsMlabName(s)
    ensures s == MlabName(s[..5], s[6..11])
  {
    assert s == s[..5] + [s[5]] + s[6..11] + s[11..];
  }

  /** Every matching host name is a prefix, the fixed part and possibly a final newline. */
  lemma MatchParts(h: string) returns (prefix: string, node: string, site: string, tail: string)
    requires IsMlabHostname(h)
    ensures IsPrefix(prefix) && IsNode(node) && IsSite(site) && (tail == "" || tail == "\n")
    ensures Body(h) == prefix + MlabName(node, site)
    ensures h == prefix + MlabName(node, site) + tail
  {
    var body := Body(h);
    tail := if MatchesToEnd(h) then "" else "\n";
    assert h == body + tail;
    var n := |body| - NAME_LENGTH;
    var name := body[n..];
    prefix, node, site := body[..n], name[..5], name[6..11];
    MlabNameOfMatch(name);
    assert body == prefix + name;
  }

  /** The labels of a matching host name end with its node and site. */
  lemma LabelsOfMatch(h: string)
    requires IsMlabHostname(h)
    ensures var names := Split(h, '.');
      |names| >= 4 && IsNode(names[|names| - 4]) && IsSite(names[|names| - 3])
      && EndsWith(Body(h), MlabName(names[|names| - 4], names[|names| - 3]))
  {
    var prefix, node, site, tail := MatchParts(h);
    LabelsOfName(prefix, node, site, tail);
    var x := MlabName(node, site);
    assert (prefix + x)[|prefix + x| - |x|..] == x;
  }

  /** `node_and_site` needs only the node and site of the labels. */
  lemma NodeAndSiteLabels(h: string)
    requires IsMlabHostname(h)
    ensures var names := Split(h, '.');
      |names| >= 4 && IsNodeAndSite((names[|names| - 4], names[|names| - 3]))
  {
    LabelsOfMatch(h);
  }

  /** A host name built from a valid node, site and prefix is accepted unchanged, and
    * `node_and_site` gives back its node and site. */
  lemma NodeAndSiteOfName(prefix: string, node: string, site: string)
    requires IsPrefix(prefix) && IsNode(node) && IsSite(site)
    ensures AssertMlabHostname(prefix + MlabName(node, site)) == Ok(prefix + MlabName(node, site))
    ensures NodeAndSite(prefix + MlabName(node, site)) == Ok((node, site))
  {
    var h := prefix + MlabName(node, site);
    MlabNameParts(node, site);
    assert h[..|h| - NAME_LENGTH] == prefix;
    assert h[|h| - NAME_LENGTH..] == MlabName(node, site);
    LabelsOfName(prefix, node, site, "");
    assert h + "" == h;
  }

  /** The same name followed by one newline is accepted too (Python's `$`), unchanged, and
    * `node_and_site` still gives back its node and site. */
  lemma NewlineEndedName(prefix: string, node: string, site: string)
    requires IsPrefix(prefix) && IsNode(node) && IsSite(site)
    ensures var h := prefix + MlabName(node, site) + "\n";
      AssertMlabHostname(h) == Ok(h) && NodeAndSite(h) == Ok((node, site))
  {
    var body := prefix + MlabName(node, site);
    var h := body + "\n";
    MlabNameParts(node, site);
    assert h[..|h| - 1] == body;
    assert body[..|body| - NAME_LENGTH] == prefix;
    assert body[|body| - NAME_LENGTH..] == MlabName(node, site);
    LabelsOfName(prefix, node, site, "\n");
  }

  /** The host names of the unit tests: with or without a prefix, node and site come back. */
  lemma PrefixedExample()
    ensures NodeAndSite("ndt.iupui.mlab1.atl02.measurement-lab.org") == Ok(("mlab1", "atl02"))
  {
    var h := "ndt.iupui.mlab1.atl02.measurement-lab.org";
    assert h == "ndt.iupui." + MlabName("mlab1", "atl02");
    assert IsNode("mlab1") && IsSite("atl02") by {
      assert "mlab1"[..4] == "mlab";
    }
    NodeAndSiteOfName("ndt.iupui.", "mlab1", "atl02");
  }

  lemma UnprefixedExample()
    ensures NodeAndSite("mlab1.atl02.measurement-lab.org") == Ok(("mlab1", "atl02"))
  {
    var h := "mlab1.atl02.measurement-lab.org";
    assert h == "" + MlabName("mlab1", "atl02");
    assert IsNode("mlab1") && IsSite("atl02") by {
      assert "mlab1"[..4] == "mlab";
    }
    NodeAndSiteOfName("", "mlab1", "atl02");
  }

  /** A `t` in the last place of the site is accepted. */
  lemma TestingSiteExample()
    ensures AssertMlabHostname("ndt.iupui.mlab1.nuq0t.measurement-lab.org").Ok?
  {
    var h := "ndt.iupui.mlab1.nuq0t.measurement-lab.org";
    assert h == "ndt.iupui." + MlabName("mlab1", "nuq0t");
    assert IsNode("mlab1") && IsSite("nuq0t") by {
      assert "mlab1"[..4] == "mlab";
    }
    NodeAndSiteOfName("ndt.iupui.", "mlab1", "nuq0t");
  }

  /** A host name ending in another domain is refused. */
  lemma WrongDomainRejected()
    ensures NodeAndSite("ndt.iupui.mlab1.atl02.measurement-lab.com").Err?
  {
    var h := "ndt.iupui.mlab1.atl02.measurement-lab.com";
    assert h[|h| - 1] == 'm' && DOMAIN[|DOMAIN| - 1] == 'g';
  }

  /** A host name whose fixed part would not start with `mlab`, and which does not end with a
    * newline, is refused. */
  lemma NoNodeRejected(h: string)
    requires |h| >= NAME_LENGTH && h[|h| - NAME_LENGTH] != 'm' && h[|h| - 1] != '\n'
    ensures AssertMlabHostname(h).Err?
  {
    var s := h[|h| - NAME_LENGTH..];
    assert s[..5][..4][0] == s[0] != 'm';
    assert !IsNode(s[..5]);
  }

  /** A two-digit node number is refused. */
  lemma TwoDigitNodeRejected()
    ensures AssertMlabHostname("ndt.iupui.mlab01.nuq0t.measurement-lab.org").Err?
  {
    var h := "ndt.iupui.mlab01.nuq0t.measurement-lab.org";
    assert h[|h| - NAME_LENGTH] == 'l' && h[|h| - 1] == 'g';
    NoNodeRejected(h);
  }

  /** A site of four letters is refused. */
  lemma LongSiteRejected()
    ensures AssertMlabHostname("ndt.iupui.mlab1.nuqq0t.measurement-lab.org").Err?
  {
    var h := "ndt.iupui.mlab1.nuqq0t.measurement-lab.org";
    assert h[|h| - NAME_LENGTH] == 'l' && h[|h| - 1] == 'g';
    NoNodeRejected(h);
  }

  /** A name shorter than the fixed part is refused. */
  lemma ShortNameRejected()
    ensures AssertMlabHostname("example.com").Err?
  {
  }
}
