/** The balances screen's bitmask: which sections are shown, the toggle buttons
    that flip one bit each, and the refusal to hide every section. */
module Balances {
  import opened Wrappers
  import Text
  import opened Telegram

  /** Bit positions of `SHOW_DETAILS`, `SHOW_BALANCES`, `SHOW_ASSETS` and
      `SHOW_CRYPTO`, which are `1 << k`. */
  const DETAILS: nat := 0
  const BALANCES: nat := 1
  const ASSETS: nat := 2
  const CRYPTO: nat := 3

  /** `1 << k`; FlagValues gives the four values the flags use. */
  function Pow2(k: nat): (p: nat)
    ensures p >= 1
  {
    if k == 0 then 1 else 2 * Pow2(k - 1)
  }

  /** The four flags are the distinct single bits 1, 2, 4 and 8. */
  lemma FlagValues()
    ensures Pow2(DETAILS) == 1 && Pow2(BALANCES) == 2 && Pow2(ASSETS) == 4 && Pow2(CRYPTO) == 8
  {
  }

  /** `bool(mask & (1 << k))` for any Python integer, negative ones included:
      bit 0 is the (non-negative) remainder by 2 and bit `k + 1` is bit `k` of
      the floor half, as in two's complement. */
  predicate IsShow(mask: int, k: nat)
    decreases k
  {
    if k == 0 then mask % 2 == 1 else IsShow(mask / 2, k - 1)
  }

  /** `mask ^ (1 << k)`: clears bit `k` when it is set and sets it otherwise. */
  function Flip(mask: int, k: nat): int
  {
    if IsShow(mask, k) then mask - Pow2(k) else mask + Pow2(k)
  }

  /** Above bit 0, a flip acts on the floor half and keeps the low bit. */
  lemma FlipStep(mask: int, k: nat)
    requires k > 0
    ensures Flip(mask, k) == 2 * Flip(mask / 2, k - 1) + mask % 2
  {
    assert mask == 2 * (mask / 2) + mask % 2;
    assert Pow2(k) == 2 * Pow2(k - 1);
  }

  /** The halves and low bit of `2 * x + b`. */
  lemma Halves(x: int, b: int)
    requires 0 <= b < 2
    ensures (2 * x + b) / 2 == x && (2 * x + b) % 2 == b
  {
  }

  /** Flipping bit `k` toggles that bit and leaves every other bit as it was. */
  lemma {:induction false} FlipOneBit(mask: int, k: nat, j: nat)
    ensures IsShow(Flip(mask, k), k) == !IsShow(mask, k)
    ensures j != k ==> IsShow(Flip(mask, k), j) == IsShow(mask, j)
    decreases k
  {
    var f := Flip(mask, k);
    var h, b := mask / 2, mask % 2;
    assert mask == 2 * h + b;
    if k == 0 {
      if b == 1 {
        assert f == 2 * h + 0;
        Halves(h, 0);
      } else {
        assert f == 2 * h + 1;
        Halves(h, 1);
      }
    } else {
      FlipStep(mask, k);
      var g := Flip(h, k - 1);
      Halves(g, b);
      assert f / 2 == g && f % 2 == b;
      if j == 0 {
        FlipOneBit(h, k - 1, 0);
      } else {
        FlipOneBit(h, k - 1, j - 1);
      }
    }
  }

  /** A toggle button pressed twice gives the mask back. */
  lemma FlipTwice(mask: int, k: nat)
    ensures Flip(Flip(mask, k), k) == mask
  {
    FlipOneBit(mask, k, k);
  }

  const CHECKED: string := "\U{2611}\U{FE0F}"
  const UNCHECKED: string := "\U{2610}"
  const CALLBACK_PREFIX: string := "accountsBalances"

  function Box(mask: int, k: nat): string
  {
    if IsShow(mask, k) then CHECKED else UNCHECKED
  }

  /** The toggle for bit `k`: its box shows the current bit, its callback
      carries the mask with that bit flipped. */
  function ToggleButton(mask: int, k: nat, caption: string): Button
  {
    Button(Box(mask, k) + caption, CALLBACK_PREFIX + "_" + Text.IntToString(Flip(mask, k)))
  }

  /** The bit each button of `get_accounts_buttons` toggles, in button order. */
  const BUTTON_BITS: seq<nat> := [BALANCES, ASSETS, CRYPTO, DETAILS]
  const BUTTON_CAPTIONS: seq<string> := [" Show balances", " Show assets", " Show crypto", "  Show details"]

  /** `get_accounts_buttons`: balances, assets, crypto, details, each box ticked
      iff its bit is set in the current mask. */
  function AccountsButtons(mask: int): (b: seq<Button>)
    ensures |b| == 4
    ensures forall i :: 0 <= i < 4 ==> b[i] == ToggleButton(mask, BUTTON_BITS[i], BUTTON_CAPTIONS[i])
  {
    seq(4, i requires 0 <= i < 4 => ToggleButton(mask, BUTTON_BITS[i], BUTTON_CAPTIONS[i]))
  }

  /** A button's callback data reads back as the current mask with exactly its
      own bit flipped, and its box tells whether that bit is set now. */
  lemma ButtonFlipsItsBit(mask: int, i: int, j: nat)
    requires 0 <= i < 4
    ensures Text.ParseInt(Text.Split(AccountsButtons(mask)[i].data, '_')[1]) == Some(Flip(mask, BUTTON_BITS[i]))
    ensures IsShow(Flip(mask, BUTTON_BITS[i]), BUTTON_BITS[i]) == !IsShow(mask, BUTTON_BITS[i])
    ensures j != BUTTON_BITS[i] ==> IsShow(Flip(mask, BUTTON_BITS[i]), j) == IsShow(mask, j)
    ensures Text.StartsWith(AccountsButtons(mask)[i].text, CHECKED) <==> IsShow(mask, BUTTON_BITS[i])
  {
    var k := BUTTON_BITS[i];
    assert '_' !in CALLBACK_PREFIX;
    Text.SplitIntSuffix(CALLBACK_PREFIX, '_', Flip(mask, k));
    FlipOneBit(mask, k, j);
    var t := AccountsButtons(mask)[i].text;
    if !IsShow(mask, k) {
      assert t[0] == '\U{2610}';
    }
  }

  /** A section of the balances message. */
  datatype Section = PlaidAccounts | Assets | Crypto

  /** The sections `handle_show_balances` appends, in this order, each iff its
      bit is set. */
  function Sections(mask: int): (s: seq<Section>)
    ensures PlaidAccounts in s <==> IsShow(mask, BALANCES)
    ensures Assets in s <==> IsShow(mask, ASSETS)
    ensures Crypto in s <==> IsShow(mask, CRYPTO)
    ensures forall i, j :: 0 <= i < j < |s| ==> SectionRank(s[i]) < SectionRank(s[j])
  {
    (if IsShow(mask, BALANCES) then [PlaidAccounts] else [])
      + (if IsShow(mask, ASSETS) then [Assets] else [])
      + (if IsShow(mask, CRYPTO) then [Crypto] else [])
  }

  function SectionRank(s: Section): nat
  {
    match s
    case PlaidAccounts => 0
    case Assets => 1
    case Crypto => 2
  }

  /** Where the message goes: edited in place when a (truthy) message id is
      given, sent as a new message otherwise. */
  datatype Delivery = EditIn(messageId: int) | SendNew

  /** What `handle_show_balances` shows: the sections, whether each shows its
      details, the toggle buttons for the mask, and where. */
  datatype Screen = Screen(sections: seq<Section>, details: bool, buttons: seq<Button>, delivery: Delivery)

  const DEFAULT_MASK: int := 2

  function ShowBalances(mask: int, messageId: Option<int>): (v: Screen)
    ensures v.sections == Sections(mask) && v.buttons == AccountsButtons(mask)
    ensures v.details <==> IsShow(mask, DETAILS)
    ensures v.delivery.EditIn? <==> messageId.Some? && messageId.value != 0
    ensures v.delivery.EditIn? ==> v.delivery.messageId == messageId.value
  {
    var delivery := if messageId.Some? && messageId.value != 0 then EditIn(messageId.value) else SendNew;
    Screen(Sections(mask), IsShow(mask, DETAILS), AccountsButtons(mask), delivery)
  }

  /** The `/balances` command's default mask shows the Plaid accounts only,
      without details, in a new message. */
  lemma DefaultScreen()
    ensures DEFAULT_MASK == Pow2(BALANCES)
    ensures ShowBalances(DEFAULT_MASK, None) == Screen([PlaidAccounts], false, AccountsButtons(DEFAULT_MASK), SendNew)
  {
    assert Sections(DEFAULT_MASK) == [PlaidAccounts];
  }

  /** What a press of a balances toggle does. */
  datatype Press = AnswerOnly | Render(screen: Screen)

  /** `handle_btn_accounts_balances`: the mask after the `_` is parsed (data
      without `_` or with a non-integer raises); a mask showing none of the
      three sections is refused and the callback is only answered; otherwise
      the pressed message is redrawn for that mask. */
  function AccountsBalancesPress(data: string, messageId: int): (r: Result<Press, Error>)
    ensures '_' !in data ==> r == Failure(IndexError)
    ensures r.Failure? ==> r.error == IndexError || r.error == ValueError
    ensures r.Success? ==>
      '_' in data && Text.ParseInt(Text.Split(data, '_')[1]).Some? &&
      var mask := Text.ParseInt(Text.Split(data, '_')[1]).value;
      (r.value.AnswerOnly? <==> Sections(mask) == []) &&
      (r.value.Render? ==> r.value.screen == ShowBalances(mask, Some(messageId)))
  {
    var parts := Text.Split(data, '_');
    if |parts| < 2 then Failure(IndexError)
    else
      match Text.ParseInt(parts[1])
      case None => Failure(ValueError)
      case Some(mask) =>
        if !IsShow(mask, BALANCES) && !IsShow(mask, ASSETS) && !IsShow(mask, CRYPTO) then Success(AnswerOnly)
        else Success(Render(ShowBalances(mask, Some(messageId))))
  }

  /** Whether a press is refused does not depend on the details bit. */
  lemma RefusalIgnoresDetails(mask: int)
    ensures Sections(Flip(mask, DETAILS)) == [] <==> Sections(mask) == []
  {
    FlipOneBit(mask, DETAILS, BALANCES);
    FlipOneBit(mask, DETAILS, ASSETS);
    FlipOneBit(mask, DETAILS, CRYPTO);
  }

  /** Pressing the button of the only section shown is refused: the screen
      stays as it is. */
  lemma LastSectionCannotBeHidden(mask: int, i: int, messageId: int)
    requires 0 <= i < 3
    requires Sections(mask) == [[PlaidAccounts, Assets, Crypto][i]]
    ensures AccountsBalancesPress(AccountsButtons(mask)[i].data, messageId) == Success(AnswerOnly)
  {
    var k := BUTTON_BITS[i];
    assert '_' !in CALLBACK_PREFIX;
    Text.SplitIntSuffix(CALLBACK_PREFIX, '_', Flip(mask, k));
    FlipOneBit(mask, k, BALANCES);
    FlipOneBit(mask, k, ASSETS);
    FlipOneBit(mask, k, CRYPTO);
  }
}
