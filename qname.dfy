/** Qualified trigger names `/namespace/name`, parsed the same way by the provider
    (`parseQName` in provider/lib/ProviderManager.js) and by the feed action
    (`parseQName` in action/lib/common.js). Both copies are called with the default
    separator `/` only, so the separator is fixed here. */
module QName {

  import opened Strings

  const Delimiter: char := '/'
  const DefaultNamespace: string := "_"

  datatype QualifiedName = QualifiedName(namespace: string, name: string)

  /** `parseQName(qname)`: a name that starts with the delimiter is split at it; the first
      piece after the leading delimiter is the namespace and every later piece, joined back,
      is the name (empty when there is none). Any other name lives in the default namespace. */
  function ParseQName(qname: string): (q: QualifiedName)
    ensures (|qname| == 0 || qname[0] != Delimiter) ==> q == QualifiedName(DefaultNamespace, qname)
    ensures |qname| > 0 && qname[0] == Delimiter ==> Delimiter !in q.namespace
    ensures |qname| > 0 && qname[0] == Delimiter && Delimiter !in qname[1..] ==> q == QualifiedName(qname[1..], "")
  {
    if |qname| > 0 && qname[0] == Delimiter then
      assert qname == [] + [Delimiter] + qname[1..];
      SplitAtFirst([], Delimiter, qname[1..]);
      var parts := Split(qname, Delimiter);
      QualifiedName(parts[1], if |parts| > 2 then Join(parts[2..], Delimiter) else "")
    else
      QualifiedName(DefaultNamespace, qname)
  }

  /** The trigger id `/namespace/name` (ProviderManager.js and cosWebAction.js build it this way). */
  function TriggerId(q: QualifiedName): string
  {
    "/" + q.namespace + "/" + q.name
  }

  /** The pieces of `/ns/tail` for a namespace without delimiters. */
  lemma SplitQualified(ns: string, tail: string)
    requires Delimiter !in ns
    ensures Split(TriggerId(QualifiedName(ns, tail)), Delimiter) == ["", ns] + Split(tail, Delimiter)
  {
    var rest := ns + [Delimiter] + tail;
    assert TriggerId(QualifiedName(ns, tail)) == [] + [Delimiter] + rest;
    SplitAtFirst([], Delimiter, rest);
    SplitAtFirst(ns, Delimiter, tail);
  }

  /** Parsing an id built from a namespace without delimiters gives back that namespace and
      the whole name, even when the name itself contains delimiters. */
  lemma TriggerIdParses(q: QualifiedName)
    requires Delimiter !in q.namespace
    ensures ParseQName(TriggerId(q)) == q
  {
    SplitQualified(q.namespace, q.name);
    var parts := Split(TriggerId(q), Delimiter);
    assert parts[1] == q.namespace && parts[2..] == Split(q.name, Delimiter);
    JoinSplit(q.name, Delimiter);
  }

  /** Every id that starts with the delimiter and holds a second one is rebuilt exactly from
      its parsed parts. */
  lemma ParseQNameRoundTrip(qname: string)
    requires |qname| > 0 && qname[0] == Delimiter
    requires Delimiter in qname[1..]
    ensures TriggerId(ParseQName(qname)) == qname
  {
    var rest := qname[1..];
    var j := IndexOf(rest, Delimiter);
    var q := QualifiedName(rest[..j], rest[j + 1..]);
    assert qname == TriggerId(q);
    TriggerIdParses(q);
  }
}
