/**
 The two hashes of a block: what each of them covers, and why an edited template or skill reaches
 a heartbeat file that was already written.
 */
module Directives {
  import opened Text
  import opened BlockScan
  import opened Render
  import opened Heartbeat
  import opened Paths
  import opened World
  import opened Manifest
  import Ownership
  import Ticks

  /** 64 times the same digit. */
  ghost function Digest(c: char): string {
    seq(64, _ => c)
  }

  /** A hash that tells a few texts apart and knows nothing else. */
  ghost function Telling(a: string, b: string, x: string): string -> string {
    (s: string) => if s == a then Digest('0') else if s == b then Digest('1') else if s == x then Digest('2')
      else Digest('3')
  }

  lemma TellingIsHex(a: string, b: string, x: string)
    ensures HexHash(Telling(a, b, x))
  {
    assert forall c: char :: c in "0123" ==> AllHex(Digest(c));
  }

  lemma ShortTells(c: char, d: char)
    requires c != d
    ensures Short(Digest(c)) != Short(Digest(d))
  {
    assert Short(Digest(c))[0] == c && Short(Digest(d))[0] == d;
  }

  /** The text behind the `r=` of a block: the hash of the skill, and the whole block around the body. */
  function Covered(skillHash: string, ref: string): string {
    skillHash + "\n" + (HEADER + "" + RenderRest("") + CLOSE + "\n" + ref + "\n" + END + "\n")
  }

  lemma CoveredTellsRefs(h: string, a: string, b: string)
    ensures Covered(h, a) == Covered(h, b) <==> a == b
  {
    hide RenderRest;
    var p, q := h + "\n" + (HEADER + "" + RenderRest("") + CLOSE + "\n"), "\n" + END + "\n";
    assert Covered(h, a) == p + a + q && Covered(h, b) == p + b + q;
    if p + a + q == p + b + q {
      assert |a| == |b|;
      assert (p + a + q)[|p|..|p| + |a|] == a && (p + b + q)[|p|..|p| + |b|] == b;
    }
  }

  lemma CoveredTellsSkills(g: string, h: string, ref: string)
    requires |g| == |h|
    ensures Covered(g, ref) == Covered(h, ref) <==> g == h
  {
    hide RenderRest;
    assert Covered(g, ref)[..|g|] == g && Covered(h, ref)[..|h|] == h;
  }

  /** `r=` is the short hash of that text. */
  lemma MarkerHashIs(h: string, ref: string, env: Env)
    ensures MarkerHash(h, ref, env) == Short(env.sha(Covered(h, ref)))
  {
  }

  /** The `r=` of a block covers its body: any two bodies are told apart by some hash. */
  lemma HashSeesRef(h: string, a: string, b: string, env: Env)
    ensures a != b ==>
              exists sha: string -> string ::
                HexHash(sha) && MarkerHash(h, a, env.(sha := sha)) != MarkerHash(h, b, env.(sha := sha))
  {
    hide *;
    if a != b {
      var x, y := Covered(h, a), Covered(h, b);
      var sha := Telling(x, y, x);
      TellingIsHex(x, y, x);
      TellsApart(x, y, x);
      CoveredTellsRefs(h, a, b);
      MarkerHashIs(h, a, env.(sha := sha));
      MarkerHashIs(h, b, env.(sha := sha));
      ShortTells('0', '1');
      assert HexHash(sha) && MarkerHash(h, a, env.(sha := sha)) != MarkerHash(h, b, env.(sha := sha));
    }
  }

  lemma TellsApart(a: string, b: string, x: string)
    ensures Telling(a, b, x)(a) == Digest('0')
    ensures a != b ==> Telling(a, b, x)(b) == Digest('1')
    ensures x != a && x != b ==> Telling(a, b, x)(x) == Digest('2')
    ensures forall s: string :: s != a && s != b && s != x ==> Telling(a, b, x)(s) == Digest('3')
    ensures |Digest('0')| == 64 == |Digest('1')| && Digest('0') != Digest('1')
  {
    assert Digest('0')[0] != Digest('1')[0];
  }

  /** Both hashes of a block cover the skill: any two skill bodies are told apart by some hash. */
  lemma HashesSeeSkill(t: Tool, m: Manifest, f: Fetched, g: Fetched, env: Env)
    requires f.render == g.render && DirectiveOf(t, m, f, env).Some?
    ensures f.skill != g.skill ==>
              exists sha: string -> string ::
                var e := env.(sha := sha);
                && HexHash(sha) && DirectiveOf(t, m, f, e).Some? && DirectiveOf(t, m, g, e).Some?
                && DirectiveOf(t, m, f, e).value.hash != DirectiveOf(t, m, g, e).value.hash
                && DirectiveOf(t, m, f, e).value.r != DirectiveOf(t, m, g, e).value.r
  {
    hide *;
    if f.skill != g.skill {
      var ref := DirectiveOf(t, m, f, env).value.ref;
      var a, b := f.skill, g.skill;
      var x := Covered(Digest('0'), ref);
      var sha := Telling(a, b, x);
      var e := env.(sha := sha);
      TellingIsHex(a, b, x);
      TellsApart(a, b, x);
      CopyNeedsNoHash(t, m, env, sha);
      DirectiveIs(t, m, f, env);
      DirectiveIs(t, m, f, e);
      DirectiveIs(t, m, g, e);
      CoveredTellsSkills(Digest('0'), Digest('1'), ref);
      ShortTells('0', '1');
      ShortTells('0', '3');
      ShortTells('1', '3');
      ShortTells('2', '0');
      ShortTells('2', '1');
      ShortTells('2', '3');
      assert HexHash(sha) && DirectiveOf(t, m, f, e).value.hash != DirectiveOf(t, m, g, e).value.hash;
    }
  }

  /** Where a tool's skill copy goes, as its template sees it. */
  function CopyOf(t: Tool, m: Manifest, env: Env): AbsPath {
    var skills := PlaceOf(t.skillsDir, env);
    if t.flat then Join(skills, m.entrypoint + ".md") else Join(Join(skills, m.entrypoint), "SKILL.md")
  }

  lemma CopyNeedsNoHash(t: Tool, m: Manifest, env: Env, sha: string -> string)
    ensures CopyOf(t, m, env.(sha := sha)) == CopyOf(t, m, env)
  {
    hide Join, Resolved, Expand, Parts;
  }

  /** The block a tool wants: its template rendered for its skill copy, the first twelve digits of the
      hash of the skill body alone, and those of the hash of the covered text. */
  lemma DirectiveIs(t: Tool, m: Manifest, f: Fetched, env: Env)
    ensures var ref := f.render(t.template, CopyOf(t, m, env));
            var d := DirectiveOf(t, m, f, env);
            && (d.Some? <==> ref.Some? && ValidRef(ref.value))
            && (d.Some? ==>
                  && d.value.ref == ref.value && d.value.hash == Short(env.sha(f.skill))
                  && d.value.r == Short(env.sha(Covered(env.sha(f.skill), ref.value))))
  {
    hide PlaceOf, Join, ValidRef, Covered, Short, RenderMarker;
    var ref := f.render(t.template, CopyOf(t, m, env));
    if ref.Some? { MarkerHashIs(env.sha(f.skill), ref.value, env); }
  }

  /** A hash is cut to twelve digits. */
  lemma ShortIs(sha: string -> string, s: string)
    requires HexHash(sha)
    ensures Short(sha(s)) == sha(s)[..12]
  {
  }

  /** The block in full: the header with both hashes, then the body, literally. */
  lemma RenderedHolds(d: Directive)
    ensures Rendered(d) ==
            HEADER + d.hash + (" r=" + d.r + "\n     " + DISCLOSURE + "\n") + CLOSE + "\n" + d.ref + "\n" + END + "\n"
  {
  }

  /** Main result on edited templates: a file settled for one rendering of a tool's block, once the tool
      renders another and the two covered texts do not collide, is rewritten by the next tick; then it
      holds one block, the wanted one, with the new body literally in it. */
  lemma TemplateEditShips(t: Tool, m: Manifest, f: Fetched, g: Fetched, env: Env, content: Option<string>)
      returns (w: string, p: string, q: string)
    requires HexHash(env.sha) && DirectiveOf(t, m, f, env).Some? && DirectiveOf(t, m, g, env).Some?
    requires var was, now := DirectiveOf(t, m, f, env).value, DirectiveOf(t, m, g, env).value;
             && Settled(content, was)
             && env.sha(Covered(env.sha(f.skill), was.ref))[..12] != env.sha(Covered(env.sha(g.skill), now.ref))[..12]
    ensures var now := DirectiveOf(t, m, g, env).value;
            && Reconciled(content, now) == Some(w) && Some(w) != content
            && Settled(Some(w), now)
            && w == p + (CLOSE + "\n" + now.ref + "\n" + END + "\n") + q
  {
    var was, now := DirectiveOf(t, m, f, env).value, DirectiveOf(t, m, g, env).value;
    hide *;
    DirectiveIs(t, m, f, env);
    DirectiveIs(t, m, g, env);
    ShortIs(env.sha, Covered(env.sha(f.skill), was.ref));
    ShortIs(env.sha, Covered(env.sha(g.skill), now.ref));
    Ownership.DirectiveIsValid(t, m, g, env);
    w, p, q := OtherBlockIsWritten(content, was, now);
  }

  /** A file settled for one pair of hashes is settled for no other. */
  lemma SettledOnce(content: Option<string>, d: Directive, e: Directive)
    ensures Settled(content, d) && (d.hash != e.hash || d.r != e.r) ==>
              && !Settled(content, e)
              && content.Some? && |Blocks(content.value)| <= 1
              && Reconciled(content, e) == Some(Written(content, e))
  {
    hide Written, BlocksFrom;
  }

  lemma OtherBlockIsWritten(content: Option<string>, d: Directive, e: Directive)
      returns (w: string, p: string, q: string)
    requires Valid(e) && Settled(content, d) && (d.hash != e.hash || d.r != e.r)
    ensures Reconciled(content, e) == Some(w) && Some(w) != content && Settled(Some(w), e)
    ensures w == p + (CLOSE + "\n" + e.ref + "\n" + END + "\n") + q
  {
    hide *;
    SettledOnce(content, d, e);
    OneWriteSettles(content, e);
    var a, t := FirstWrite(content, e);
    RenderedHolds(e);
    w := Written(content, e);
    Ticks.InFormIs(w, a, e, t);
    p, q := a + (HEADER + e.hash + (" r=" + e.r + "\n     " + DISCLOSURE + "\n")), t;
    var body := CLOSE + "\n" + e.ref + "\n" + END + "\n";
    assert Rendered(e) == (HEADER + e.hash + (" r=" + e.r + "\n     " + DISCLOSURE + "\n")) + body;
    assert a + Rendered(e) + t == p + body + q;
  }
}
