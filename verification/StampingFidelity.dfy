/** The stamping protocol over the real comparison: what a stamped invoice's XML says about the submitted one. */
module StampingFidelity {
  import opened Results
  import Stamping
  import StampingRuns
  import XmlFidelity

  /** The comparison that `validateAuthoritativeStampResult` makes, for a given parser. */
  function Comparison(parse: string -> Option<XmlFidelity.Node>): (string, string) -> bool {
    (stamped: string, pinned: string) =>
      parse(stamped).Some? && parse(pinned).Some? && XmlFidelity.Accepted(parse(stamped).value, parse(pinned).value)
  }

  /** In every run, an invoice that is STAMPED carries a document from which removing the stamp gives back the
      document one of its operations submitted, up to prefixes, xmlns attributes and attribute order. */
  lemma StampedDocumentIsTheSubmittedOne(
    caps: Stamping.Capabilities, parse: string -> Option<XmlFidelity.Node>, steps: seq<Stamping.Step>, i: nat)
    returns (stamped: XmlFidelity.Node, submitted: XmlFidelity.Node, key: Stamping.Key)
    requires var t := Stamping.Run(Stamping.Config(caps, Comparison(parse)), steps).tables;
             i in t.invoices && t.invoices[i].status == Stamping.Stamped
    ensures var t := Stamping.Run(Stamping.Config(caps, Comparison(parse)), steps).tables;
            && t.invoices[i].stampedXml.Some? && parse(t.invoices[i].stampedXml.value) == Some(stamped)
            && key in t.ops && t.ops[key].invoice == i && t.ops[key].requestXml.Some?
            && parse(t.ops[key].requestXml.value) == Some(submitted)
            && XmlFidelity.SameNode(XmlFidelity.Strip(stamped, XmlFidelity.HasComplemento(submitted)), submitted)
  {
    hide XmlFidelity.SameNode, XmlFidelity.Strip, XmlFidelity.HasComplemento, XmlFidelity.IsCfdi40, XmlFidelity.Named,
      XmlFidelity.Placed, Stamping.Run;
    var cfg := Stamping.Config(caps, Comparison(parse));
    StampingRuns.StampedIsFaithful(cfg, steps, i);
    var t := Stamping.Run(cfg, steps).tables;
    var k :| Stamping.StampedBy(cfg, t, i, k);
    key := k;
    stamped := parse(t.invoices[i].stampedXml.value).value;
    submitted := parse(t.ops[k].requestXml.value).value;
  }
}
