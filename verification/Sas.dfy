/** Shared access signatures: the text that is signed tells apart everything that
    is signed. */
module Sas {
  import opened Types
  import opened Text

  /** The signed parameters of a token (all but the signature itself). */
  datatype Params = Params(sp: string, st: string, se: string, sr: string, sip: string, spr: string,
                           sv: string, si: string, rscc: string, rscd: string, rsce: string,
                           rscl: string, rsct: string)

  function ResourceText(account: string, container: string, blob: Option<string>): string {
    match blob
    case Some(b) => "/blob/" + account + "/" + container + "/" + b
    case None => "/blob/" + account + "/" + container
  }

  function SignedParts(account: string, container: string, blob: Option<string>, p: Params): seq<string> {
    [p.sp, p.st, p.se, ResourceText(account, container, blob), p.si, p.sip, p.spr, p.sv, p.sr,
     "", "", p.rscc, p.rscd, p.rsce, p.rscl, p.rsct]
  }

  function TextToSign(account: string, container: string, blob: Option<string>, p: Params): string {
    Join("\n", SignedParts(account, container, blob, p))
  }

  function Tail(blob: Option<string>): string {
    if blob.Some? then "/" + blob.value else ""
  }

  lemma ResourceShape(account: string, container: string, blob: Option<string>)
    ensures ResourceText(account, container, blob) == "/blob/" + (account + ("/" + (container + Tail(blob))))
  {
  }

  /** The resource tells account, container and blob apart, and a container from a
      blob in it. */
  lemma ResourceInjective(a: string, c: string, b: Option<string>, a': string, c': string, b': Option<string>)
    requires Free('/', a) && Free('/', c) && Free('/', a') && Free('/', c')
    requires ResourceText(a, c, b) == ResourceText(a', c', b')
    ensures a == a' && c == c' && b == b'
  {
    ResourceShape(a, c, b);
    ResourceShape(a', c', b');
    var x, y := c + Tail(b), c' + Tail(b');
    CutHead("/blob/", a + ("/" + x), a' + ("/" + y));
    FirstPart('/', a, "/" + x, a', "/" + y);
    CutHead("/", x, y);
    FirstPart('/', c, Tail(b), c', Tail(b'));
    if b.Some? && b'.Some? {
      CutHead("/", b.value, b'.value);
    }
  }

  lemma CutHead(head: string, x: string, y: string)
    requires head + x == head + y
    ensures x == y
  {
    assert (head + x)[|head|..] == x && (head + y)[|head|..] == y;
  }

  predicate NoLineBreaks(account: string, container: string, blob: Option<string>, p: Params) {
    && AllFree('\n', SignedParts(account, container, blob, p))
  }

  /** Two signed texts are equal only if everything that was signed is equal: no
      field can be shifted into another, and a token for a container is no token for
      a blob. Only the fields of one side, those the account signed, need to be free
      of line breaks. */
  lemma TextToSignInjective(a: string, c: string, b: Option<string>, p: Params,
                            a': string, c': string, b': Option<string>, p': Params)
    requires NoLineBreaks(a, c, b, p)
    requires Free('/', a) && Free('/', c) && Free('/', a') && Free('/', c')
    ensures TextToSign(a, c, b, p) == TextToSign(a', c', b', p') <==> a == a' && c == c' && b == b' && p == p'
  {
    if TextToSign(a, c, b, p) == TextToSign(a', c', b', p') {
      var x, y := SignedParts(a, c, b, p), SignedParts(a', c', b', p');
      JoinInjectiveOneSided('\n', x, y);
      assert x[0] == y[0] && x[1] == y[1] && x[2] == y[2] && x[3] == y[3] && x[4] == y[4] && x[5] == y[5];
      assert x[6] == y[6] && x[7] == y[7] && x[8] == y[8] && x[11] == y[11] && x[12] == y[12];
      assert x[13] == y[13] && x[14] == y[14] && x[15] == y[15];
      ResourceInjective(a, c, b, a', c', b');
    }
  }

  /** The sixteen lines of the signed text are the token's fields in this order, with the
      resource as the fourth and two that are always empty. */
  lemma SignedLines(account: string, container: string, blob: Option<string>, p: Params)
    requires NoLineBreaks(account, container, blob, p)
    ensures var lines := Split('\n', TextToSign(account, container, blob, p));
            && |lines| == 16
            && lines[0] == p.sp && lines[1] == p.st && lines[2] == p.se
            && lines[3] == "/blob/" + account + "/" + container + (if blob.Some? then "/" + blob.value else "")
            && lines[4] == p.si && lines[5] == p.sip && lines[6] == p.spr && lines[7] == p.sv
            && lines[8] == p.sr && lines[9] == "" && lines[10] == "" && lines[11] == p.rscc
            && lines[12] == p.rscd && lines[13] == p.rsce && lines[14] == p.rscl && lines[15] == p.rsct
  {
    SplitJoin('\n', SignedParts(account, container, blob, p));
    if blob.Some? {
      Assoc("/blob/" + account + "/" + container, "/", blob.value);
    } else {
      assert ResourceText(account, container, None) + "" == ResourceText(account, container, None);
    }
  }

  /** With a slash in the container name the text is ambiguous. */
  lemma SlashIsAmbiguous(p: Params)
    ensures TextToSign("acct", "c/b", None, p) == TextToSign("acct", "c", Some("b"), p)
  {
    assert ResourceText("acct", "c/b", None) == ResourceText("acct", "c", Some("b"));
  }
}
