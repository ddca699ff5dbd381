/** mail/device.go: the header parameters that carry a file name, one for each part of it, and what a reader of the
    header makes of them (sections 3 and 4.1 of RFC 2231). */
module Disposition {
  import opened InfoSet
  import opened FileNames

  // ---------------------------------------------------------------------------------- numbers

  function Decimal(n: nat): string {
    if n < 10 then ["0123456789"[n]] else Decimal(n / 10) + ["0123456789"[n % 10]]
  }

  function Number(s: string): Option<nat> {
    if s == "" || !('0' <= s[|s| - 1] <= '9') then None
    else
      var d := s[|s| - 1] as int - '0' as int;
      if |s| == 1 then Some(d)
      else
        match Number(s[..|s| - 1])
        case None => None
        case Some(m) => Some(10 * m + d)
  }

  lemma {:induction false} NumberDecimal(n: nat)
    ensures Number(Decimal(n)) == Some(n) && forall k :: 0 <= k < |Decimal(n)| ==> '0' <= Decimal(n)[k] <= '9'
  {
    var s := Decimal(n);
    if n >= 10 {
      NumberDecimal(n / 10);
      assert s[..|s| - 1] == Decimal(n / 10);
    }
  }

  // ---------------------------------------------------------------------------------- the reader

  /** The place of the first `c`, or the end. */
  function First(s: string, c: char): (i: nat)
    ensures i <= |s| && (i < |s| ==> s[i] == c) && forall k :: 0 <= k < i ==> s[k] != c
  {
    if s == "" || s[0] == c then 0 else 1 + First(s[1..], c)
  }

  datatype Section = Section(number: nat, text: string)

  /** The sections of the parameter `filename` in the rest of a header, up to its end. */
  function ReadSections(s: string): Option<seq<Section>>
    decreases |s|
  {
    if s == "" then Some([])
    else if |s| < 11 || s[..11] != "; filename*" then None
    else
      var t := s[11..];
      var i := First(t, '*');
      if i + 1 >= |t| || t[i + 1] != '=' || Number(t[..i]).None? then None
      else
        var u := t[i + 2..];
        var j := First(u, ';');
        match ReadSections(u[j..])
        case None => None
        case Some(rest) => Some([Section(Number(t[..i]).value, u[..j])] + rest)
  }

  /** The sections are numbered from `n` on; their texts, one after the other. */
  function Assemble(sections: seq<Section>, n: nat): Option<string> {
    if sections == [] then Some("")
    else if sections[0].number != n then None
    else
      match Assemble(sections[1..], n + 1)
      case None => None
      case Some(rest) => Some(sections[0].text + rest)
  }

  /** The name that a header gives: what stands behind the plain name is put together, and decoded if it is UTF-8. */
  function ReadName(s: string): Option<string> {
    if |s| < 10 || s[..10] != "filename=\"" then None
    else
      var t := s[10..];
      var i := First(t, '"');
      if i >= |t| || ReadSections(t[i + 1..]).None? then None
      else
        match Assemble(ReadSections(t[i + 1..]).value, 0)
        case None => None
        case Some(text) => if |text| < 7 || text[..7] != "UTF-8''" then None else Decode(text[7..])
  }

  // ---------------------------------------------------------------------------------- the writer

  function Param(n: nat, text: string): string {
    "; filename*" + Decimal(n) + "*=" + text
  }

  /** The parameters for the parts from the `n`th on. */
  function Params(parts: seq<string>, n: nat): string
    requires n <= |parts|
    decreases |parts| - n
  {
    if n == |parts| then "" else Param(n, parts[n]) + Params(parts, n + 1)
  }

  lemma ParamsNext(parts: seq<string>, n: nat, res: string)
    requires n < |parts|
    ensures res + Params(parts, n) == (res + Param(n, parts[n])) + Params(parts, n + 1)
  {
    hide Param;
  }

  lemma Behind(a: string, b: string)
    ensures (a + b)[..|a|] == a && (a + b)[|a|..] == b
  {
  }

  lemma FirstIs(a: string, c: char, b: string)
    requires c !in a
    ensures First(a + [c] + b, c) == |a| && (b == "" ==> First(a + b, c) == |a|)
  {
    var s := a + [c] + b;
    assert s[|a|] == c && forall k :: 0 <= k < |a| ==> s[k] == a[k];
    assert b == "" ==> a + b == a;
  }

  lemma ParamsStart(parts: seq<string>, n: nat)
    requires n <= |parts|
    ensures n == |parts| || (Params(parts, n) != "" && Params(parts, n)[0] == ';')
  {
  }

  /** The first `;` of a text without one and what follows it. */
  lemma FirstBehind(a: string, b: string)
    requires ';' !in a && (b == "" || b[0] == ';')
    ensures First(a + b, ';') == |a|
  {
    var s := a + b;
    assert forall k :: 0 <= k < |a| ==> s[k] == a[k];
    assert b != "" ==> s[|a|] == b[0];
  }

  lemma ReadStep(s: string, d: string, n: nat, text: string, rest: string)
    requires |s| >= 11 && s[..11] == "; filename*"
    requires First(s[11..], '*') == |d| && |s| >= 13 + |d| && s[11..][..|d|] == d && Number(d) == Some(n)
    requires s[11..][|d| + 1] == '=' && s[11..][|d| + 2..] == text + rest && First(text + rest, ';') == |text|
    ensures ReadSections(s)
            == match ReadSections(rest) case None => None case Some(r) => Some([Section(n, text)] + r)
  {
    hide Number, First;
    Behind(text, rest);
  }

  lemma Pieces(head: string, d: string, eq: string, u: string)
    requires |eq| == 2
    ensures var s := head + d + eq + u;
            && s[..|head|] == head && s[|head|..] == d + [eq[0]] + ([eq[1]] + u)
            && s[|head|..][..|d|] == d && s[|head|..][|d| + 1] == eq[1] && s[|head|..][|d| + 2..] == u
  {
    var s := head + d + eq + u;
    assert s == head + (d + [eq[0]] + ([eq[1]] + u));
    assert d + [eq[0]] + ([eq[1]] + u) == d + (eq + u);
  }

  /** One parameter and what follows it, as the reader sees it. */
  lemma ReadOne(n: nat, text: string, rest: string)
    requires ';' !in text && (rest == "" || rest[0] == ';')
    ensures ReadSections(Param(n, text) + rest)
            == match ReadSections(rest) case None => None case Some(r) => Some([Section(n, text)] + r)
  {
    hide Decimal, Number, First, ReadSections;
    var d := Decimal(n);
    ParamIs(n, text, rest);
    NumberDecimal(n);
    Pieces("; filename*", d, "*=", text + rest);
    FirstIs(d, '*', ['='] + (text + rest));
    FirstBehind(text, rest);
    ReadStep(Param(n, text) + rest, d, n, text, rest);
  }

  lemma ParamIs(n: nat, text: string, rest: string)
    ensures Param(n, text) + rest == "; filename*" + Decimal(n) + "*=" + (text + rest)
  {
    hide Decimal;
  }

  /** What the reader finds in the parameters of the parts from the `n`th on. */
  function Numbered(parts: seq<string>, n: nat): (r: seq<Section>)
    requires n <= |parts|
    decreases |parts| - n
  {
    if n == |parts| then [] else [Section(n, parts[n])] + Numbered(parts, n + 1)
  }

  lemma {:induction false} ReadParams(parts: seq<string>, n: nat)
    requires n <= |parts| && forall j :: 0 <= j < |parts| ==> ';' !in parts[j]
    ensures ReadSections(Params(parts, n)) == Some(Numbered(parts, n))
    decreases |parts| - n
  {
    hide Param;
    if n < |parts| {
      ReadParams(parts, n + 1);
      ParamsStart(parts, n + 1);
      ReadOne(n, parts[n], Params(parts, n + 1));
    }
  }

  lemma {:induction false} FlattenFront(parts: seq<string>)
    requires parts != []
    ensures Flatten(parts) == parts[0] + Flatten(parts[1..])
    decreases |parts|
  {
    var m := |parts| - 1;
    if m == 0 {
      assert parts[..0] == [] && parts[1..] == [];
      assert Flatten(parts) == "" + parts[0] && parts[0] + "" == parts[0];
    } else {
      FlattenFront(parts[..m]);
      assert parts[..m][1..] == parts[1..][..m - 1];
    }
  }

  lemma {:induction false} AssembleNumbered(parts: seq<string>, n: nat)
    requires n <= |parts|
    ensures Assemble(Numbered(parts, n), n) == Some(Flatten(parts[n..]))
    decreases |parts| - n
  {
    hide Flatten;
    if n < |parts| {
      AssembleNumbered(parts, n + 1);
      assert Numbered(parts, n)[1..] == Numbered(parts, n + 1);
      FlattenFront(parts[n..]);
      assert parts[n..][1..] == parts[n + 1..];
    } else {
      assert parts[n..] == [] && Flatten([]) == "" by { NoParts(); }
    }
  }

  lemma NoParts()
    ensures Flatten([]) == ""
  {
  }

  /** A part of an encoded name has no semicolon. */
  lemma PartPlain(name: string, cuts: seq<nat>, parts: seq<string>, j: int)
    requires 0 < j < |cuts| && |cuts| == |parts| + 1 && PartSpells(name, cuts, parts, j)
    ensures ';' !in parts[j - 1]
  {
    hide Spells, Decode;
    var head := if j == 1 then "UTF-8''" else "";
    var p := parts[j - 1];
    assert p == head + p[|head|..];
    forall k | 0 <= k < |p| ensures p[k] != ';' {
      if k >= |head| {
        assert SafeAt(p[|head|..], k - |head|);
        assert p[k] == p[|head|..][k - |head|];
      }
    }
  }

  /** What the reader makes of the whole header. */
  lemma ReadBack(safename: string, name: string, parts: seq<string>)
    requires '"' !in safename && (forall j :: 0 <= j < |parts| ==> ';' !in parts[j])
    requires Flatten(parts) == "UTF-8''" + EncodeAll(name)
    ensures ReadName("filename=\"" + safename + "\"" + Params(parts, 0)) == Some(name)
  {
    hide ReadSections, Assemble, Params, Flatten, EncodeAll, Decode, First, Numbered;
    var ps := Params(parts, 0);
    var t := safename + ['"'] + ps;
    assert "filename=\"" + safename + "\"" + ps == "filename=\"" + t;
    Behind("filename=\"", t);
    FirstIs(safename, '"', ps);
    assert t[|safename| + 1..] == ps;
    ReadParams(parts, 0);
    AssembleNumbered(parts, 0);
    assert parts[0..] == parts;
    Behind("UTF-8''", EncodeAll(name));
    DecodeEncode(name);
  }

  /** encodeContentDispositionFilename: the plain name, and behind it one numbered parameter for each part of the real
      one.  Whoever reads the header gets the real name back, if the plain one has no quote in it. */
  method EncodeContentDispositionFilename(safename: string, realname: string) returns (res: string)
    ensures '"' !in safename ==> ReadName(res) == Some(realname)
    ensures ("filename=\"" + safename + "\"") <= res
  {
    hide Params, Param, ReadName, PartSpells, Flatten, EncodeAll, Fits;
    res := "filename=\"" + safename + "\"";
    var parts, cuts := EncodeParts(realname);
    ghost var head := res;
    for i := 0 to |parts|
      invariant head <= res && head + Params(parts, 0) == res + Params(parts, i)
    {
      ParamsNext(parts, i, res);
      res := res + Param(i, parts[i]);
    }
    assert res + Params(parts, |parts|) == res by { ParamsEnd(parts, res); }
    forall j | 0 <= j < |parts| ensures ';' !in parts[j] { PartPlain(realname, cuts, parts, j + 1); }
    if '"' !in safename { ReadBack(safename, realname, parts); }
  }

  lemma ParamsEnd(parts: seq<string>, res: string)
    ensures res + Params(parts, |parts|) == res
  {
  }
}
