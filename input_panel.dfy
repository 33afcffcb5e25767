/** `CurrencyInputPanel`: the unlock control beside the selected token, and the state
    the panel and its modal change in response to the user (whether the token
    selector is open, and the search text typed into it). */
module CurrencyInputPanel {
  import opened JsValues
  import opened Rows
  import opened CurrencySelectModal

  /** `ethers.constants.MaxUint256`: the unbounded allowance an unlock grants. */
  const MaxUint256: nat := 0xffff_ffff_ffff_ffff_ffff_ffff_ffff_ffff_ffff_ffff_ffff_ffff_ffff_ffff_ffff_ffff

  /** The approval a click on "unlock" submits: `token.approve(spender, amount)`,
      recorded with the token's address as the approval key. */
  datatype ApprovalRequest = ApprovalRequest(token: string, spender: string, amount: nat)

  /** What `renderUnlockButton` renders: nothing, an inert "pending" control, or an
      "unlock" control whose click submits the given approval. */
  datatype UnlockControl = NoControl | PendingControl | Unlock(onClick: ApprovalRequest)

  /** `exchange` is `SIMPLESWAP_ADDRESSES[networkId]`; `pendingApproval` is what
      `usePendingApproval(selectedTokenAddress)` reports. */
  function UnlockButton(disableUnlock: bool, showUnlock: bool, selectedTokenAddress: string,
                        pendingApproval: bool, exchange: string): (c: UnlockControl)
    ensures c.NoControl? <==>
      disableUnlock || !showUnlock || selectedTokenAddress == EthKey || selectedTokenAddress == ""
    ensures c.PendingControl? <==> !c.NoControl? && pendingApproval
    ensures c.Unlock? ==> c.onClick == ApprovalRequest(selectedTokenAddress, exchange, MaxUint256)
  {
    if disableUnlock || !showUnlock || selectedTokenAddress == EthKey || selectedTokenAddress == "" then
      NoControl
    else if !pendingApproval then
      Unlock(ApprovalRequest(selectedTokenAddress, exchange, MaxUint256))
    else
      PendingControl
  }

  /** While an approval is pending no second one can be submitted from this control,
      and ETH itself is never offered an unlock. */
  lemma NoApprovalWhilePendingOrForEth(disableUnlock: bool, showUnlock: bool, selected: string,
                                       pendingApproval: bool, exchange: string)
    requires pendingApproval || selected == EthKey
    ensures !UnlockButton(disableUnlock, showUnlock, selected, pendingApproval, exchange).Unlock?
  {
  }

  /** The state of one panel: its `disableTokenSelect` prop, its `modalIsOpen` and the
      `searchQuery` of its modal. The modal is mounted only while selection is enabled,
      and unmounting it discards its search text. */
  class TokenPicker {
    var disableTokenSelect: bool
    var modalIsOpen: bool
    var searchQuery: string

    /** The modal is mounted and open, so its search box is on screen. */
    predicate Shown()
      reads this
    {
      modalIsOpen && !disableTokenSelect
    }

    /** The search text is empty whenever the search box is not on screen. */
    ghost predicate Valid()
      reads this
    {
      !Shown() ==> searchQuery == ""
    }

    constructor (disableTokenSelect: bool)
      ensures Valid()
      ensures this.disableTokenSelect == disableTokenSelect
      ensures !modalIsOpen && searchQuery == ""
    {
      this.disableTokenSelect := disableTokenSelect;
      modalIsOpen := false;
      searchQuery := "";
    }

    /** The parent renders the panel with a new `disableTokenSelect`. Turning it on
        unmounts the modal, whose search text is lost; `modalIsOpen` is kept, so turning
        it off again remounts the modal in the same open or closed state, with an empty
        search text. */
    method SetDisableTokenSelect(disable: bool)
      requires Valid()
      modifies this
      ensures Valid()
      ensures disableTokenSelect == disable && modalIsOpen == old(modalIsOpen)
      ensures searchQuery == if disable then "" else old(searchQuery)
    {
      disableTokenSelect := disable;
      if disable {
        searchQuery := "";
      }
    }

    /** The rows the modal lists for the current search text. */
    function Listed(snap: Snapshot, fmt: Formatters): seq<Row>
      reads this
      requires snap.table.Valid()
    {
      FilteredTokenList(snap, fmt, searchQuery)
    }

    /** Whenever the search box is not on screen, showing it lists every token. */
    lemma HiddenListsAll(snap: Snapshot, fmt: Formatters)
      requires Valid() && !Shown() && snap.table.Valid()
      ensures Listed(snap, fmt) == TokenList(snap, fmt)
    {
      EmptyQueryListsAll(snap, fmt);
    }

    /** A click on the selected-token button. */
    method OpenSelector()
      requires Valid()
      modifies this
      ensures Valid()
      ensures modalIsOpen == (old(modalIsOpen) || !disableTokenSelect)
      ensures searchQuery == old(searchQuery) && disableTokenSelect == old(disableTokenSelect)
    {
      if !disableTokenSelect {
        modalIsOpen := true;
      }
    }

    /** `onInput`: typing in the search box, which exists only while the selector
        is open. `checksummed` is what `isAddress` returns for the text. */
    method Input(input: string, checksummed: Option<string>)
      requires Valid() && Shown()
      modifies this
      ensures Valid() && Shown()
      ensures disableTokenSelect == old(disableTokenSelect)
      ensures searchQuery == SearchQuery(input, checksummed)
    {
      searchQuery := SearchQuery(input, checksummed);
    }

    /** `_onTokenSelect`: clear the search, report the address to the caller
        (`onTokenSelect`, returned here as `selected`), and close the selector. */
    method SelectToken(address: string) returns (selected: string)
      requires Valid()
      modifies this
      ensures Valid()
      ensures selected == address
      ensures !modalIsOpen && searchQuery == ""
      ensures disableTokenSelect == old(disableTokenSelect)
    {
      searchQuery := "";
      selected := address;
      modalIsOpen := false;
    }

    /** `clearInputAndDismiss`: the close icon or a dismissal of the modal. */
    method ClearInputAndDismiss()
      requires Valid()
      modifies this
      ensures Valid()
      ensures !modalIsOpen && searchQuery == ""
      ensures disableTokenSelect == old(disableTokenSelect)
    {
      searchQuery := "";
      modalIsOpen := false;
    }
  }
}
