/** The WhatsApp message sent at checkout and the link that carries it.
    Line breaks are written as the escape `%0A`; no other character is
    escaped. The currency text of the total is produced outside the model
    and comes in as a string. */
module Message {
  import opened Types

  const LineBreak: string := "%0A"
  const AddressPlaceholder: string := "Não informado"
  const LinkBase: string := "https://wa.me/"
  const TextQuery: string := "?text="

  // ---------------------------------------------------------------- numbers

  predicate IsDigit(c: char)
  {
    '0' <= c <= '9'
  }

  predicate AllDigits(s: string)
  {
    forall i :: 0 <= i < |s| ==> IsDigit(s[i])
  }

  function DigitChar(d: nat): (c: char)
    requires d < 10
    ensures IsDigit(c) && c as int - '0' as int == d
  {
    (d + '0' as int) as char
  }

  /** The decimal digits of a whole number, without leading zeros. */
  function NatToDecimal(n: nat): (s: string)
    ensures |s| >= 1 && AllDigits(s)
    ensures s[0] == '0' ==> n == 0 && s == "0"
  {
    if n < 10 then [DigitChar(n)] else NatToDecimal(n / 10) + [DigitChar(n % 10)]
  }

  /** Reads a string of decimal digits as a number. */
  function ParseDecimal(s: string): nat
    requires AllDigits(s)
  {
    if s == [] then 0
    else ParseDecimal(s[..|s| - 1]) * 10 + (s[|s| - 1] as int - '0' as int)
  }

  /** Printing a number and reading it back gives the same number. */
  lemma {:induction false} DecimalRoundTrip(n: nat)
    ensures ParseDecimal(NatToDecimal(n)) == n
  {
    var s := NatToDecimal(n);
    if n >= 10 {
      DecimalRoundTrip(n / 10);
      assert s[..|s| - 1] == NatToDecimal(n / 10);
    }
  }

  /** A whole number as JavaScript prints it in a template: its digits, with
      a leading minus sign when it is negative. */
  function IntToDecimal(n: int): (s: string)
    ensures |s| >= 1
    ensures n >= 0 ==> AllDigits(s) && ParseDecimal(s) == n && (s[0] == '0' ==> s == "0")
    ensures n < 0 ==> |s| >= 2 && s[0] == '-' && s[1] != '0' && AllDigits(s[1..]) && ParseDecimal(s[1..]) == -n
  {
    if n < 0 then
      DecimalRoundTrip(-n);
      assert ("-" + NatToDecimal(-n))[1..] == NatToDecimal(-n);
      "-" + NatToDecimal(-n)
    else
      DecimalRoundTrip(n);
      NatToDecimal(n)
  }

  // ---------------------------------------------------------------- joining

  /** `parts.join(sep)`: no parts give the empty string and a single part is
      the result itself; `JoinSnoc` extends this one part at a time. */
  function Join(parts: seq<string>, sep: string): (r: string)
    ensures parts == [] ==> r == ""
    ensures |parts| == 1 ==> r == parts[0]
  {
    if |parts| == 0 then ""
    else if |parts| == 1 then parts[0]
    else parts[0] + sep + Join(parts[1..], sep)
  }

  /** A character that occurs neither in the separator nor in any part does
      not occur in the joined string. */
  lemma {:induction false} JoinLacks(parts: seq<string>, sep: string, c: char)
    requires c !in sep
    requires forall i :: 0 <= i < |parts| ==> c !in parts[i]
    ensures c !in Join(parts, sep)
  {
    if |parts| >= 2 {
      JoinLacks(parts[1..], sep, c);
    }
  }

  /** Joining one more part adds the separator and that part at the end. */
  lemma {:induction false} JoinSnoc(parts: seq<string>, sep: string, x: string)
    requires |parts| >= 1
    ensures Join(parts + [x], sep) == Join(parts, sep) + sep + x
  {
    if |parts| == 1 {
      assert (parts + [x])[1..] == [x];
    } else {
      assert (parts + [x])[1..] == parts[1..] + [x];
      JoinSnoc(parts[1..], sep, x);
    }
  }

  // ---------------------------------------------------------------- the message

  /** `${i.quantity}x ${i.name}`: the quantity in decimal, then "x ", then the
      product name. */
  function ItemLabel(l: CartItem): (r: string)
    ensures |r| >= |l.name| + 3
    ensures r[|r| - |l.name|..] == l.name && r[|r| - |l.name| - 2..|r| - |l.name|] == "x "
    ensures l.quantity >= 0 ==>
              AllDigits(r[..|r| - |l.name| - 2]) && ParseDecimal(r[..|r| - |l.name| - 2]) == l.quantity &&
              (r[0] == '0' ==> r[..|r| - |l.name| - 2] == "0")
  {
    var q := IntToDecimal(l.quantity);
    assert (q + "x " + l.name)[..|q|] == q;
    q + "x " + l.name
  }

  function ItemLabels(items: seq<CartItem>): (labels: seq<string>)
    ensures |labels| == |items|
    ensures forall i :: 0 <= i < |items| ==> labels[i] == ItemLabel(items[i])
  {
    seq(|items|, i requires 0 <= i < |items| => ItemLabel(items[i]))
  }

  /** `cart.map(i => `${i.quantity}x ${i.name}`).join(' + ')`: empty exactly
      when the cart is, and a single line's own label. */
  function ItemSummary(items: seq<CartItem>): (r: string)
    ensures r == "" <==> items == []
    ensures |items| == 1 ==> r == ItemLabel(items[0])
  {
    var labels := ItemLabels(items);
    if |items| >= 2 then
      assert Join(labels, " + ") == labels[0] + " + " + Join(labels[1..], " + ");
      Join(labels, " + ")
    else
      Join(labels, " + ")
  }

  /** The summary lists the lines in cart order: one more line appends
      " + " and its label. */
  lemma ItemSummarySnoc(items: seq<CartItem>, l: CartItem)
    requires items != []
    ensures ItemSummary(items + [l]) == ItemSummary(items) + " + " + ItemLabel(l)
  {
    assert ItemLabels(items + [l]) == ItemLabels(items) + [ItemLabel(l)];
    JoinSnoc(ItemLabels(items), " + ", ItemLabel(l));
  }

  /** `address || 'Não informado'`: only the empty string falls back; there is
      no trimming. */
  function AddressText(address: string): (r: string)
    ensures r == AddressPlaceholder <==> address == "" || address == AddressPlaceholder
    ensures r != "" && (address != "" ==> r == address)
  {
    if address == "" then AddressPlaceholder else address
  }

  /** The message text as the template concatenates it; `TextIsEscapedLines`
      shows that it is its twelve logical lines joined by the `%0A` escape. */
  function Text(data: CustomerData, items: seq<CartItem>, formattedTotal: string): string
  {
    "Olá DropsMob 👋%0A%0A" +
    "Já efectuei o pagamento via e-Mola.%0A%0A" +
    "👤 *Nome:* " + data.name + "%0A" +
    "📱 *Número e-Mola:* " + data.phone + "%0A" +
    "💰 *Valor:* " + formattedTotal + "%0A" +
    "📋 *Pedido:* " + ItemSummary(items) + "%0A" +
    "🔑 *Referência:* " + data.reference + "%0A" +
    "📍 *Endereço:* " + AddressText(data.address) + "%0A%0A" +
    "Aguardando confirmação!"
  }

  /** The logical lines of the message, in order; blank lines included. */
  function Lines(data: CustomerData, items: seq<CartItem>, formattedTotal: string): (lines: seq<string>)
    ensures |lines| == 12
  {
    [ "Olá DropsMob 👋",
      "",
      "Já efectuei o pagamento via e-Mola.",
      "",
      "👤 *Nome:* " + data.name,
      "📱 *Número e-Mola:* " + data.phone,
      "💰 *Valor:* " + formattedTotal,
      "📋 *Pedido:* " + ItemSummary(items),
      "🔑 *Referência:* " + data.reference,
      "📍 *Endereço:* " + AddressText(data.address),
      "",
      "Aguardando confirmação!" ]
  }

  /** The template is exactly its lines joined by the `%0A` escape. */
  lemma TextIsEscapedLines(data: CustomerData, items: seq<CartItem>, formattedTotal: string)
    ensures Text(data, items, formattedTotal) == Join(Lines(data, items, formattedTotal), LineBreak)
  {
    var ls := Lines(data, items, formattedTotal);
    JoinTwelve(ls);
    TemplateBreaks();
    Regroup("Olá DropsMob 👋", "Já efectuei o pagamento via e-Mola.",
            "👤 *Nome:* ", data.name, "📱 *Número e-Mola:* ", data.phone,
            "💰 *Valor:* ", formattedTotal, "📋 *Pedido:* ", ItemSummary(items),
            "🔑 *Referência:* ", data.reference, "📍 *Endereço:* ", AddressText(data.address),
            "Aguardando confirmação!");
  }

  /** The template's double line breaks are two `%0A` escapes around an empty line. */
  lemma TemplateBreaks()
    ensures "Olá DropsMob 👋%0A%0A" == "Olá DropsMob 👋" + LineBreak + "" + LineBreak
    ensures "Já efectuei o pagamento via e-Mola.%0A%0A" == "Já efectuei o pagamento via e-Mola." + LineBreak + "" + LineBreak
    ensures "%0A%0A" == LineBreak + "" + LineBreak
  {
  }

  /** Twelve lines joined, written out from the left. */
  lemma JoinTwelve(ls: seq<string>)
    requires |ls| == 12
    ensures Join(ls, LineBreak) ==
      ls[0] + LineBreak + ls[1] + LineBreak + ls[2] + LineBreak + ls[3] + LineBreak +
      ls[4] + LineBreak + ls[5] + LineBreak + ls[6] + LineBreak + ls[7] + LineBreak +
      ls[8] + LineBreak + ls[9] + LineBreak + ls[10] + LineBreak + ls[11]
  {
    assert ls[..1] == [ls[0]];
    JoinPrefix(ls, 1);
    JoinPrefix(ls, 2);
    JoinPrefix(ls, 3);
    JoinPrefix(ls, 4);
    JoinPrefix(ls, 5);
    JoinPrefix(ls, 6);
    JoinPrefix(ls, 7);
    JoinPrefix(ls, 8);
    JoinPrefix(ls, 9);
    JoinPrefix(ls, 10);
    JoinPrefix(ls, 11);
    assert ls[..12] == ls;
  }

  /** Joining one more line of a list, read from the left. */
  lemma JoinPrefix(ls: seq<string>, k: nat)
    requires 1 <= k < |ls|
    ensures Join(ls[..k + 1], LineBreak) == Join(ls[..k], LineBreak) + LineBreak + ls[k]
  {
    assert ls[..k + 1] == ls[..k] + [ls[k]];
    JoinSnoc(ls[..k], LineBreak, ls[k]);
  }

  /** The template's pieces regrouped line by line. Each step re-brackets one
      line only, which keeps every proof obligation about the long
      concatenation small. */
  lemma Regroup(g: string, p: string, hn: string, n: string, hp: string, ph: string,
                hv: string, v: string, ho: string, o: string, hr: string, r: string,
                ha: string, a: string, c: string)
    ensures
      (g + LineBreak + "" + LineBreak) + (p + LineBreak + "" + LineBreak) +
      hn + n + LineBreak + hp + ph + LineBreak + hv + v + LineBreak + ho + o + LineBreak +
      hr + r + LineBreak + ha + a + (LineBreak + "" + LineBreak) + c
      ==
      g + LineBreak + "" + LineBreak + p + LineBreak + "" + LineBreak +
      (hn + n) + LineBreak + (hp + ph) + LineBreak + (hv + v) + LineBreak + (ho + o) + LineBreak +
      (hr + r) + LineBreak + (ha + a) + LineBreak + "" + LineBreak + c
  {
    var t4 := g + LineBreak + "" + LineBreak + p + LineBreak + "" + LineBreak;
    assert (g + LineBreak + "" + LineBreak) + (p + LineBreak + "" + LineBreak) == t4;
    var t5 := t4 + (hn + n) + LineBreak;
    assert t4 + hn + n + LineBreak == t5;
    var t6 := t5 + (hp + ph) + LineBreak;
    assert t5 + hp + ph + LineBreak == t6;
    var t7 := t6 + (hv + v) + LineBreak;
    assert t6 + hv + v + LineBreak == t7;
    var t8 := t7 + (ho + o) + LineBreak;
    assert t7 + ho + o + LineBreak == t8;
    var t9 := t8 + (hr + r) + LineBreak;
    assert t8 + hr + r + LineBreak == t9;
    assert t9 + ha + a + (LineBreak + "" + LineBreak) + c == t9 + (ha + a) + LineBreak + "" + LineBreak + c;
  }

  // ---------------------------------------------------------------- transport

  /** A reader that decodes only the `%0A` escape: every `%0A` becomes a line
      break and every other character is kept as it is. A form-style decoder
      that also reads `+` as a space is not this reader. */
  function DecodeLineBreaks(s: string): string
  {
    if |s| >= 3 && s[..3] == LineBreak then "\n" + DecodeLineBreaks(s[3..])
    else if s == [] then []
    else [s[0]] + DecodeLineBreaks(s[1..])
  }

  lemma {:induction false} DecodePlainPrefix(a: string, b: string)
    requires '%' !in a
    ensures DecodeLineBreaks(a + b) == a + DecodeLineBreaks(b)
  {
    if a != [] {
      assert (a + b)[0] == a[0] != '%';
      assert (a + b)[1..] == a[1..] + b;
      DecodePlainPrefix(a[1..], b);
    } else {
      assert a + b == b;
    }
  }

  lemma DecodeBreakPrefix(b: string)
    ensures DecodeLineBreaks(LineBreak + b) == "\n" + DecodeLineBreaks(b)
  {
    assert (LineBreak + b)[..3] == LineBreak;
    assert (LineBreak + b)[3..] == b;
  }

  /** Lines free of '%' joined by the escape decode to the same lines joined
      by real line breaks. */
  lemma {:induction false} DecodeJoin(lines: seq<string>)
    requires forall i :: 0 <= i < |lines| ==> '%' !in lines[i]
    ensures DecodeLineBreaks(Join(lines, LineBreak)) == Join(lines, "\n")
  {
    if |lines| == 0 {
    } else if |lines| == 1 {
      DecodePlainPrefix(lines[0], "");
      assert lines[0] + "" == lines[0];
    } else {
      var rest := Join(lines[1..], LineBreak);
      assert Join(lines, LineBreak) == lines[0] + (LineBreak + rest);
      DecodePlainPrefix(lines[0], LineBreak + rest);
      DecodeBreakPrefix(rest);
      DecodeJoin(lines[1..]);
    }
  }

  /** When no field of the customer, no product name and not the currency text
      contains '%', a reader that decodes only `%0A` gets exactly the intended
      lines, separated by line breaks. */
  lemma MessageDecodes(data: CustomerData, items: seq<CartItem>, formattedTotal: string)
    requires '%' !in data.name && '%' !in data.phone && '%' !in data.reference && '%' !in data.address
    requires '%' !in formattedTotal
    requires forall i :: 0 <= i < |items| ==> '%' !in items[i].name
    ensures DecodeLineBreaks(Text(data, items, formattedTotal)) == Join(Lines(data, items, formattedTotal), "\n")
  {
    TextIsEscapedLines(data, items, formattedTotal);
    LinesLack(data, items, formattedTotal, '%');
    DecodeJoin(Lines(data, items, formattedTotal));
  }

  /** The message never carries a literal line break unless a field does. */
  lemma MessageHasNoNewline(data: CustomerData, items: seq<CartItem>, formattedTotal: string)
    requires '\n' !in data.name && '\n' !in data.phone && '\n' !in data.reference && '\n' !in data.address
    requires '\n' !in formattedTotal
    requires forall i :: 0 <= i < |items| ==> '\n' !in items[i].name
    ensures '\n' !in Text(data, items, formattedTotal)
  {
    TextIsEscapedLines(data, items, formattedTotal);
    LinesLack(data, items, formattedTotal, '\n');
    JoinLacks(Lines(data, items, formattedTotal), LineBreak, '\n');
  }

  /** '%' and line breaks occur in a line of the message only through a field. */
  lemma LinesLack(data: CustomerData, items: seq<CartItem>, formattedTotal: string, c: char)
    requires c == '%' || c == '\n'
    requires c !in data.name && c !in data.phone && c !in data.reference && c !in data.address
    requires c !in formattedTotal
    requires forall i :: 0 <= i < |items| ==> c !in items[i].name
    ensures forall i :: 0 <= i < 12 ==> c !in Lines(data, items, formattedTotal)[i]
  {
    SummaryLacks(items, c);
    TemplateLacks(c);
    var ls := Lines(data, items, formattedTotal);
    forall i | 0 <= i < 12 ensures c !in ls[i] { }
  }

  /** The template's own text holds neither '%' nor a line break. The literals
      are checked three or four at a time, through the index-wise `Lacks`,
      because one obligation over all of them is too large for the solver. */
  lemma TemplateLacks(c: char)
    requires c == '%' || c == '\n'
    ensures c !in "Olá DropsMob 👋" && c !in "Já efectuei o pagamento via e-Mola."
    ensures c !in "👤 *Nome:* " && c !in "📱 *Número e-Mola:* " && c !in "💰 *Valor:* "
    ensures c !in "📋 *Pedido:* " && c !in "🔑 *Referência:* " && c !in "📍 *Endereço:* "
    ensures c !in "Aguardando confirmação!" && c !in AddressPlaceholder
  {
    TemplateLacks1(c);
    TemplateLacks2(c);
    TemplateLacks3(c);
    LacksNotIn("Olá DropsMob 👋", c);
    LacksNotIn("Já efectuei o pagamento via e-Mola.", c);
    LacksNotIn("Aguardando confirmação!", c);
    LacksNotIn(AddressPlaceholder, c);
    LacksNotIn("👤 *Nome:* ", c);
    LacksNotIn("📱 *Número e-Mola:* ", c);
    LacksNotIn("💰 *Valor:* ", c);
    LacksNotIn("📋 *Pedido:* ", c);
    LacksNotIn("🔑 *Referência:* ", c);
    LacksNotIn("📍 *Endereço:* ", c);
  }

  predicate Lacks(s: string, c: char)
  {
    forall i :: 0 <= i < |s| ==> s[i] != c
  }

  lemma LacksNotIn(s: string, c: char)
    requires Lacks(s, c)
    ensures c !in s
  {
  }

  lemma TemplateLacks1(c: char)
    requires c == '%' || c == '\n'
    ensures Lacks("Olá DropsMob 👋", c)
    ensures Lacks("Já efectuei o pagamento via e-Mola.", c)
    ensures Lacks("Aguardando confirmação!", c)
  {
  }

  lemma TemplateLacks2(c: char)
    requires c == '%' || c == '\n'
    ensures Lacks(AddressPlaceholder, c)
    ensures Lacks("👤 *Nome:* ", c)
    ensures Lacks("📱 *Número e-Mola:* ", c)
  {
  }

  lemma TemplateLacks3(c: char)
    requires c == '%' || c == '\n'
    ensures Lacks("💰 *Valor:* ", c)
    ensures Lacks("📋 *Pedido:* ", c)
    ensures Lacks("🔑 *Referência:* ", c)
    ensures Lacks("📍 *Endereço:* ", c)
  {
  }

  /** A character other than a digit, '-', 'x', ' ' and '+' that no product
      name contains is absent from the summary. */
  lemma SummaryLacks(items: seq<CartItem>, c: char)
    requires !IsDigit(c) && c !in "-x +"
    requires forall i :: 0 <= i < |items| ==> c !in items[i].name
    ensures c !in ItemSummary(items)
  {
    var labels := ItemLabels(items);
    forall i | 0 <= i < |labels| ensures c !in labels[i] {
      var q := IntToDecimal(items[i].quantity);
      assert c !in q by {
        if items[i].quantity >= 0 {
          assert AllDigits(q);
        } else {
          assert q == [q[0]] + q[1..];
          assert AllDigits(q[1..]);
        }
      }
      assert labels[i] == q + "x " + items[i].name;
    }
    JoinLacks(labels, " + ", c);
  }

  // ---------------------------------------------------------------- the link

  /** `https://wa.me/${STORE_PHONE}?text=${message}`: the link begins with the
      WhatsApp address and ends with the message. */
  function Link(storePhone: string, message: string): (r: string)
    ensures LinkBase <= r && storePhone <= r[|LinkBase|..]
    ensures |message| <= |r| && r[|r| - |message|..] == message
    ensures |r| == |LinkBase| + |storePhone| + |TextQuery| + |message|
  {
    LinkBase + storePhone + TextQuery + message
  }

  /** The index of the first occurrence of c. */
  function IndexOf(s: string, c: char): (r: Option<nat>)
    ensures r.Some? ==> r.value < |s| && s[r.value] == c && c !in s[..r.value]
    ensures r.None? ==> c !in s
  {
    if s == [] then None
    else if s[0] == c then Some(0)
    else
      match IndexOf(s[1..], c)
      case None => None
      case Some(i) =>
        assert s[..i + 1] == [s[0]] + s[1..][..i];
        Some(i + 1)
  }

  /** The `text` parameter of a link: everything after the first '?' when the
      query begins with `text=`. */
  function TextParam(link: string): Option<string>
  {
    match IndexOf(link, '?')
    case None => None
    case Some(i) =>
      var query := link[i + 1..];
      if |query| >= 5 && query[..5] == "text=" then Some(query[5..]) else None
  }

  lemma {:induction false} IndexOfAfter(a: string, b: string, c: char)
    requires c !in a && |b| >= 1 && b[0] == c
    ensures IndexOf(a + b, c) == Some(|a|)
  {
    if a == [] {
      assert a + b == b;
    } else {
      assert (a + b)[1..] == a[1..] + b;
      IndexOfAfter(a[1..], b, c);
    }
  }

  /** The message can be read back from the link whenever the store phone
      contains no '?'. */
  lemma LinkRoundTrip(storePhone: string, message: string)
    requires '?' !in storePhone
    ensures TextParam(Link(storePhone, message)) == Some(message)
  {
    var head := LinkBase + storePhone;
    assert Link(storePhone, message) == head + (TextQuery + message);
    assert '?' !in head;
    IndexOfAfter(head, TextQuery + message, '?');
    assert Link(storePhone, message)[|head| + 1..] == "text=" + message;
  }
}
