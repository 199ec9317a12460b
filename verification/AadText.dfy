/** The additional-authenticated-data and HKDF info strings, as both programs build them. */
module AadText {
  import opened Ideal
  import opened Text

  function Lines(lines: seq<string>): string {
    Join(lines, '\n')
  }

  function ProjectKeyLines(project: string, version: nat, master: nat): seq<string> {
    ["vault:project-key:v1", "project=" + project, "version=" + Decimal(version), "master=" + Decimal(master)]
  }

  function EnvironmentKeyLines(project: string, environment: string, version: nat, projectKeyVersion: nat): seq<string> {
    ["vault:environment-key:v1", "project=" + project, "environment=" + environment,
     "version=" + Decimal(version), "project_key_version=" + Decimal(projectKeyVersion)]
  }

  function SecretLines(project: string, environment: string, id: string, name: string, version: nat, envKeyVersion: nat)
    : seq<string>
  {
    ["vault:secret:v1", "project=" + project, "environment=" + environment, "secret=" + id, "name=" + name,
     "version=" + Decimal(version), "env_key_version=" + Decimal(envKeyVersion)]
  }

  function EnvelopeLines(boot: string, environment: string, envKeyVersion: nat, client: string, server: string)
    : seq<string>
  {
    ["vault:boot-envelope:v1", "boot=" + boot, "environment=" + environment,
     "env_key_version=" + Decimal(envKeyVersion), "client=" + client, "server=" + server]
  }

  function ResumeLines(boot: string, challenge: string): seq<string> {
    ["vault-resume:v1", boot, challenge]
  }

  function ProjectKeyAad(project: string, version: nat, master: nat): string {
    Lines(ProjectKeyLines(project, version, master))
  }

  function EnvironmentKeyAad(project: string, environment: string, version: nat, projectKeyVersion: nat): string {
    Lines(EnvironmentKeyLines(project, environment, version, projectKeyVersion))
  }

  function SecretAad(project: string, environment: string, id: string, name: string, version: nat, envKeyVersion: nat)
    : string
  {
    Lines(SecretLines(project, environment, id, name, version, envKeyVersion))
  }

  function EnvelopeInfo(boot: string, environment: string, envKeyVersion: nat, client: string, server: string): string {
    Lines(EnvelopeLines(boot, environment, envKeyVersion, client, server))
  }

  function ResumeMessage(boot: string, challenge: string): string {
    Lines(ResumeLines(boot, challenge))
  }

  /** The SHA-256 fingerprint of a public key, idealised as an injective text. */
  function Fingerprint(key: PublicKey): string {
    match key
    case LowOrder => "low"
    case Point(secret) => Decimal(secret)
  }

  /** The Go client's join: one loop sizing the buffer, one appending to it. */
  method JoinLines(lines: seq<string>) returns (out: string)
    ensures out == Lines(lines)
  {
    out := "";
    if lines == [] {
      return;
    }
    for i := 0 to |lines|
      invariant i > 0 ==> out == Lines(lines[..i])
      invariant i == 0 ==> out == ""
    {
      if i > 0 {
        JoinAppend(lines[..i], lines[i]);
        assert lines[..i] + [lines[i]] == lines[..i + 1];
        out := out + ['\n'];
      }
      out := out + lines[i];
    }
    assert lines[..|lines|] == lines;
  }

  lemma {:induction false} JoinAppend(lines: seq<string>, last: string)
    requires lines != []
    ensures Lines(lines + [last]) == Lines(lines) + ['\n'] + last
  {
    if |lines| == 1 {
      assert (lines + [last])[1..] == [last];
      assert Lines([last]) == last;
    } else {
      JoinAppend(lines[1..], last);
      assert (lines + [last])[1..] == lines[1..] + [last];
      assert lines[0] + ['\n'] + (Lines(lines[1..]) + ['\n'] + last)
          == (lines[0] + ['\n'] + Lines(lines[1..])) + ['\n'] + last;
    }
  }

  predicate OneLine(s: string) {
    '\n' !in s
  }

  /** An id as the generators make them: not empty, and on one line. */
  predicate UsableId(id: string) {
    id != "" && OneLine(id)
  }

  predicate AllOneLine(lines: seq<string>) {
    forall i :: 0 <= i < |lines| ==> OneLine(lines[i])
  }

  /** Line lists free of line feeds are recovered from their joined text. */
  lemma LinesInjective(a: seq<string>, b: seq<string>)
    requires a != [] && b != [] && AllOneLine(a) && AllOneLine(b)
    requires Lines(a) == Lines(b)
    ensures a == b
  {
    SplitOfJoin(a, '\n');
    SplitOfJoin(b, '\n');
  }

  lemma PrefixCancels(prefix: string, a: string, b: string)
    requires prefix + a == prefix + b
    ensures a == b
  {
    assert a == (prefix + a)[|prefix|..];
    assert b == (prefix + b)[|prefix|..];
  }

  lemma LabelledNumberInjective(prefix: string, a: nat, b: nat)
    requires prefix + Decimal(a) == prefix + Decimal(b)
    ensures a == b
  {
    PrefixCancels(prefix, Decimal(a), Decimal(b));
    DecimalInjective(a, b);
  }

  /** Secret AAD binds every field: two texts agree exactly when all six fields do. */
  lemma SecretAadBinds(p: string, e: string, i: string, n: string, v: nat, k: nat,
                       p': string, e': string, i': string, n': string, v': nat, k': nat)
    requires OneLine(p) && OneLine(e) && OneLine(i) && OneLine(n)
    requires OneLine(p') && OneLine(e') && OneLine(i') && OneLine(n')
    ensures SecretAad(p, e, i, n, v, k) == SecretAad(p', e', i', n', v', k')
       <==> (p, e, i, n, v, k) == (p', e', i', n', v', k')
  {
    if SecretAad(p, e, i, n, v, k) == SecretAad(p', e', i', n', v', k') {
      var a, b := SecretLines(p, e, i, n, v, k), SecretLines(p', e', i', n', v', k');
      LinesInjective(a, b);
      assert a[1] == b[1] && a[2] == b[2] && a[3] == b[3] && a[4] == b[4] && a[5] == b[5] && a[6] == b[6];
      PrefixCancels("project=", p, p');
      PrefixCancels("environment=", e, e');
      PrefixCancels("secret=", i, i');
      PrefixCancels("name=", n, n');
      LabelledNumberInjective("version=", v, v');
      LabelledNumberInjective("env_key_version=", k, k');
    }
  }

  /** A key wrapped for one environment key version never opens as another's. */
  lemma EnvironmentKeyAadBinds(p: string, e: string, v: nat, k: nat, p': string, e': string, v': nat, k': nat)
    requires OneLine(p) && OneLine(e) && OneLine(p') && OneLine(e')
    ensures EnvironmentKeyAad(p, e, v, k) == EnvironmentKeyAad(p', e', v', k') <==> (p, e, v, k) == (p', e', v', k')
  {
    if EnvironmentKeyAad(p, e, v, k) == EnvironmentKeyAad(p', e', v', k') {
      var a, b := EnvironmentKeyLines(p, e, v, k), EnvironmentKeyLines(p', e', v', k');
      LinesInjective(a, b);
      assert a[1] == b[1] && a[2] == b[2] && a[3] == b[3] && a[4] == b[4];
      PrefixCancels("project=", p, p');
      PrefixCancels("environment=", e, e');
      LabelledNumberInjective("version=", v, v');
      LabelledNumberInjective("project_key_version=", k, k');
    }
  }

  /** The lines of every field, one after the other. */
  function AllLines(fields: seq<string>): seq<string> {
    if fields == [] then [] else Split(fields[0], '\n') + AllLines(fields[1..])
  }

  lemma {:induction false} SplitLines(fields: seq<string>)
    requires fields != []
    ensures Split(Lines(fields), '\n') == AllLines(fields)
  {
    if |fields| > 1 {
      SplitLines(fields[1..]);
      SplitConcat(fields[0], Lines(fields[1..]), '\n');
    } else {
      assert AllLines(fields[1..]) == [];
    }
  }

  /** Exactly which field lists share a text: those with the same lines. A line feed inside a field therefore
      breaks the binding, and nothing else does. */
  lemma LinesCollideExactly(a: seq<string>, b: seq<string>)
    requires a != [] && b != []
    ensures Lines(a) == Lines(b) <==> AllLines(a) == AllLines(b)
  {
    SplitLines(a);
    SplitLines(b);
    JoinOfSplit(Lines(a), '\n');
    JoinOfSplit(Lines(b), '\n');
  }

  /** The four kinds of text and the resume message never collide, whatever their fields hold: their first lines
      differ. */
  lemma KindsAreDisjoint(a: seq<string>, b: seq<string>)
    requires a != [] && b != [] && OneLine(a[0]) && OneLine(b[0]) && a[0] != b[0]
    ensures Lines(a) != Lines(b)
  {
    SplitLines(a);
    SplitLines(b);
    SplitPrefix(a[0], "", '\n');
    SplitPrefix(b[0], "", '\n');
    assert AllLines(a)[0] == a[0] && AllLines(b)[0] == b[0];
  }

  /** A line feed inside a field: two boots and challenges with one resume message. */
  lemma LineFeedBreaksBinding()
    ensures ResumeMessage("a\nb", "c") == ResumeMessage("a", "b\nc")
  {
    assert ResumeMessage("a\nb", "c") == "vault-resume:v1\na\nb\nc";
    assert ResumeMessage("a", "b\nc") == "vault-resume:v1\na\nb\nc";
  }
}
