/** Which responses the driver takes for answers of its own dialogs, header by header. */
module DriverAnswers {
  import opened SipMessages
  import opened DriverModel

  /** Branch, From tag and CSeq of the dialog's INVITE. */
  predicate NamesInvite(cfg: Config, i: int, r: Response) {
    && r.branch == Digest(cfg.seed, cfg.runId, i, InvitePurpose)
    && r.fromTag == Digest(cfg.seed, cfg.runId, i, FromPurpose) && r.cseq == ["1", "INVITE"]
  }

  /** Branch, both tags and CSeq of its BYE. */
  predicate NamesBye(cfg: Config, i: int, r: Response) {
    && r.branch == Digest(cfg.seed, cfg.runId, i, ByePurpose)
    && r.fromTag == Digest(cfg.seed, cfg.runId, i, FromPurpose)
    && r.toTag == Digest(cfg.seed, cfg.runId, i, ToPurpose) && r.cseq == ["2", "BYE"]
  }

  /** The To tag the driver computed for the call, and a Contact that mentions its target. */
  ghost predicate NamesTarget(cfg: Config, i: int, r: Response) {
    && r.toTag == Digest(cfg.seed, cfg.runId, i, ToPurpose)
    && exists before, after :: r.contact == before + "sip:load@" + cfg.target + after
  }

  /** A caller objects to a response that does not name its INVITE, to a provisional other than the 100
      its policy knows, and to a 200 that does not name the target or comes before a required 100; a
      dialog in teardown to one that answers neither its INVITE nor, finally, its BYE. */
  ghost predicate Objects(cfg: Config, g: Dialog, i: int, r: Response) {
    if g.phase == Calling then
      || !NamesInvite(cfg, i, r)
      || (r.code < 200 && !(r.code == 100 && cfg.provisional == Trying100))
      || (r.code == 200 && !(NamesTarget(cfg, i, r) && (g.provisionalSeen || cfg.provisional == NoProvisional)))
    else r.cseq != ["1", "INVITE"] && !(NamesBye(cfg, i, r) && r.code >= 200)
  }

  lemma ContainsExact(haystack: string, a: string, b: string)
    ensures Contains(haystack, a + b) <==> exists before, after :: haystack == before + a + b + after
  {
    if k :| 0 <= k <= |haystack| && a + b <= haystack[k..] {
      var before, after := haystack[..k], haystack[k..][|a + b|..];
      assert haystack == before + haystack[k..] && haystack[k..] == a + b + after;
      assert haystack == before + a + b + after;
    }
    if before, after :| haystack == before + a + b + after {
      assert haystack[|before|..] == a + b + after;
    }
  }

  lemma ObjectionExact(cfg: Config, g: Dialog, i: int, r: Response)
    ensures Objectionable(cfg, g, i, r) <==> Objects(cfg, g, i, r)
  {
    ContainsExact(r.contact, "sip:load@", cfg.target);
  }

  /** The last word of the CSeq ends in INVITE. */
  lemma EndsExact(cseq: seq<string>)
    ensures EndsWithInvite(cseq) <==> cseq != [] && exists before :: cseq[|cseq| - 1] == before + "INVITE"
  {
    if EndsWithInvite(cseq) {
      var word := cseq[|cseq| - 1];
      assert word == word[..|word| - 6] + "INVITE";
    }
  }
}
