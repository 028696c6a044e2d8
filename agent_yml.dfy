/**
 * The agent configuration file: a fixed template whose one `%s` placeholder
 * is filled, with Python's `%` string-formatting operator, by the control
 * instance's address.
 */
module AgentYml {
  import opened Wrappers
  import opened Text

  /**
   * The template's lines as they stand between its triple quotes: it opens
   * with a newline, so its first line is empty, and it ends with one.
   */
  function TemplateLines(): (ls: seq<string>)
    ensures NoNewlines(ls)
  {
    ["", "version: 1", "", "control-service:", "  hostname: %s", "  port: 4524", "", "dataset:", "  backend: gce"]
  }

  /** The template text: its lines, each followed by a newline. */
  function AgentYmlTemplate(): string
  {
    Unlines(TemplateLines())
  }

  /** The lines of the file written for the control address `ip`. */
  function AgentYmlLines(ip: string): seq<string>
  {
    ["", "version: 1", "", "control-service:", "  hostname: " + ip, "  port: 4524", "", "dataset:", "  backend: gce"]
  }

  function PrependTo(p: string, r: Option<string>): Option<string>
  {
    match r
    case None => None
    case Some(s) => Some(p + s)
  }

  /**
   * `t % arg` for one string argument; `used` says whether a conversion has
   * already consumed it. `%s` inserts the argument, `%%` a percent sign.
   * None stands for the exceptions Python raises: a second `%s` (not enough
   * arguments), a lone `%` at the end (incomplete format), and an argument
   * no conversion consumed (not all arguments converted). None is also
   * what this model gives for every other directive, `%r` and `%s` with a
   * flag, width or precision among them, which Python accepts: those are
   * outside the model, not errors of Python's; the template uses none.
   */
  function Format(t: string, arg: string, used: bool): (r: Option<string>)
    ensures r.Some? && !used ==> '%' in t
    decreases |t|
  {
    if t == [] then (if used then Some("") else None)
    else if t[0] != '%' then PrependTo([t[0]], Format(t[1..], arg, used))
    else if |t| == 1 then None
    else if t[1] == '%' then PrependTo("%", Format(t[2..], arg, used))
    else if t[1] == 's' && !used then PrependTo(arg, Format(t[2..], arg, true))
    else None
  }

  /** Text without a percent sign formats to itself once the argument is consumed, and fails otherwise. */
  lemma {:induction false} FormatPlain(t: string, arg: string, used: bool)
    requires '%' !in t
    ensures Format(t, arg, used) == if used then Some(t) else None
  {
    if t != [] {
      assert t == [t[0]] + t[1..];
      FormatPlain(t[1..], arg, used);
    }
  }

  /** A percent-free prefix is copied in front of whatever the rest formats to. */
  lemma {:induction false} FormatPlainPrefix(p: string, rest: string, arg: string, used: bool)
    requires '%' !in p
    ensures Format(p + rest, arg, used) == PrependTo(p, Format(rest, arg, used))
  {
    if p == [] {
      assert p + rest == rest;
      match Format(rest, arg, used)
      case None =>
      case Some(r) =>
        assert p + r == r;
    } else {
      assert (p + rest)[0] == p[0];
      assert (p + rest)[1..] == p[1..] + rest;
      FormatPlainPrefix(p[1..], rest, arg, used);
      match Format(rest, arg, used)
      case None =>
      case Some(r) =>
        assert [p[0]] + (p[1..] + r) == p + r;
    }
  }

  /** Formatting `head + "%s" + tail`, with no other percent sign, puts the argument in the placeholder's place. */
  lemma FormatSinglePlaceholder(head: string, tail: string, arg: string)
    requires '%' !in head && '%' !in tail
    ensures Format(head + "%s" + tail, arg, false) == Some(head + arg + tail)
  {
    var rest := "%s" + tail;
    assert head + "%s" + tail == head + rest;
    FormatPlainPrefix(head, rest, arg, false);
    assert rest[2..] == tail;
    FormatPlain(tail, arg, true);
    assert Format(rest, arg, false) == Some(arg + tail);
    assert head + (arg + tail) == head + arg + tail;
  }

  /** The encoding of lines around one line `h + x`, cut just before `x` and just after it. */
  lemma UnlinesAround(before: seq<string>, h: string, x: string, after: seq<string>)
    ensures Unlines(before + [h + x] + after) == (Unlines(before) + h) + x + ("\n" + Unlines(after))
  {
    UnlinesAppend(before + [h + x], after);
    UnlinesAppend(before, [h + x]);
    assert Unlines([h + x]) == h + x + "\n";
  }

  predicate NoPercent(ls: seq<string>)
  {
    forall i :: 0 <= i < |ls| ==> '%' !in ls[i]
  }

  lemma {:induction false} NoPercentInUnlines(ls: seq<string>)
    requires NoPercent(ls)
    ensures '%' !in Unlines(ls)
  {
    if ls != [] {
      NoPercentInUnlines(ls[1..]);
    }
  }

  /**
   * Formatting newline-terminated lines, one of which ends in the only
   * `%s`, replaces that `%s` by the argument and leaves every other line as it is.
   */
  lemma FormatPlaceholderLine(before: seq<string>, h: string, after: seq<string>, arg: string)
    requires NoPercent(before) && '%' !in h && NoPercent(after)
    ensures Format(Unlines(before + [h + "%s"] + after), arg, false)
         == Some(Unlines(before + [h + arg] + after))
  {
    NoPercentInUnlines(before);
    NoPercentInUnlines(after);
    UnlinesAround(before, h, "%s", after);
    UnlinesAround(before, h, arg, after);
    FormatSinglePlaceholder(Unlines(before) + h, "\n" + Unlines(after), arg);
  }

  function LinesBeforeHostname(): seq<string>
  {
    ["", "version: 1", "", "control-service:"]
  }

  function LinesAfterHostname(): seq<string>
  {
    ["  port: 4524", "", "dataset:", "  backend: gce"]
  }

  lemma TemplateAroundPlaceholder(ip: string)
    ensures TemplateLines() == LinesBeforeHostname() + ["  hostname: " + "%s"] + LinesAfterHostname()
    ensures AgentYmlLines(ip) == LinesBeforeHostname() + ["  hostname: " + ip] + LinesAfterHostname()
    ensures NoPercent(LinesBeforeHostname()) && NoPercent(LinesAfterHostname())
    ensures '%' !in "  hostname: "
  {
    assert "  hostname: %s" == "  hostname: " + "%s";
  }

  /**
   * The file's content for the control address `ip`, which is what Python's
   * `%` makes of the template and `ip`: the template's lines with `ip` as the
   * hostname.
   */
  function RenderAgentYml(ip: string): (yml: string)
    ensures Format(AgentYmlTemplate(), ip, false) == Some(yml)
  {
    TemplateAroundPlaceholder(ip);
    FormatPlaceholderLine(LinesBeforeHostname(), "  hostname: ", LinesAfterHostname(), ip);
    Unlines(AgentYmlLines(ip))
  }

  /**
   * Read back line by line, the file is the fixed lines with `ip` as the
   * hostname: a leading empty line, schema version 1, port 4524 and
   * backend gce, whatever the address.
   */
  lemma AgentYmlText(ip: string)
    requires '\n' !in ip
    ensures SplitLines(RenderAgentYml(ip)) == AgentYmlLines(ip)
    ensures |SplitLines(RenderAgentYml(ip))| == 9
  {
    AgentYmlLinesPlain(ip);
    SplitUnlines(AgentYmlLines(ip));
  }

  lemma AgentYmlLinesPlain(ip: string)
    requires '\n' !in ip
    ensures NoNewlines(AgentYmlLines(ip))
  {
    var ls := AgentYmlLines(ip);
    assert '\n' !in ls[4] by {
      assert ls[4] == "  hostname: " + ip;
    }
  }
}
