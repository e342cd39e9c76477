/** The fork choice rule: whether an external header should replace the current head. */
module ForkChoice {
  import opened Options
  import opened ChainTree
  import opened ChainDb

  /** `ttd` is the terminal total difficulty, `preserve` the local-block callback and `draw`
      the outcome of the tie-breaking coin.  `None` reports a missing total difficulty. */
  function ReorgNeeded(db: Db, current: Header, extern: Header,
                       ttd: Option<nat>, preserve: Header -> bool, draw: bool): (r: Option<bool>)
    ensures r.None? <==> GetTd(db, current.hash, current.number).None? || GetTd(db, extern.hash, extern.number).None?
    // a head is only ever replaced by one at least as heavy, unless the merge has happened
    ensures r == Some(true) ==>
              GetTd(db, extern.hash, extern.number).value >= GetTd(db, current.hash, current.number).value
              || (ttd.Some? && ttd.value <= GetTd(db, extern.hash, extern.number).value)
    // and a heavier one is never refused
    ensures r == Some(false) ==>
              GetTd(db, extern.hash, extern.number).value <= GetTd(db, current.hash, current.number).value
    // after the merge everything is accepted
    ensures r.Some? && ttd.Some? && ttd.value <= GetTd(db, extern.hash, extern.number).value ==> r.value
    // before it, between equal weights, the lower height wins; at equal height a preserved current
    // head stays, a preserved external one wins over one that is not, and otherwise the coin decides
    ensures r.Some? && GetTd(db, extern.hash, extern.number) == GetTd(db, current.hash, current.number)
            && (ttd.Some? ==> ttd.value > GetTd(db, extern.hash, extern.number).value) ==>
              && (extern.number < current.number ==> r.value) && (extern.number > current.number ==> !r.value)
              && (extern.number == current.number && preserve(current) ==> !r.value)
              && (extern.number == current.number && !preserve(current) && preserve(extern) ==> r.value)
              && (extern.number == current.number && !preserve(current) && !preserve(extern) ==> r.value == draw)
  {
    var localTd := GetTd(db, current.hash, current.number);
    var externTd := GetTd(db, extern.hash, extern.number);
    if localTd.None? || externTd.None? then None
    else if ttd.Some? && ttd.value <= externTd.value then Some(true)
    else if externTd.value > localTd.value then Some(true)
    else if externTd.value < localTd.value then Some(false)
    else if extern.number < current.number then Some(true)
    else if extern.number == current.number then
      Some(!preserve(current) && (preserve(extern) || draw))
    else Some(false)
  }

  /** The coin decides nothing but a tie at equal height that no preserved block settles. */
  lemma CoinOnlyBreaksTies(db: Db, current: Header, extern: Header, ttd: Option<nat>, preserve: Header -> bool)
    ensures ReorgNeeded(db, current, extern, ttd, preserve, true) != ReorgNeeded(db, current, extern, ttd, preserve, false)
            <==>
            && GetTd(db, extern.hash, extern.number).Some?
            && GetTd(db, extern.hash, extern.number) == GetTd(db, current.hash, current.number)
            && !(ttd.Some? && ttd.value <= GetTd(db, extern.hash, extern.number).value)
            && extern.number == current.number && !preserve(current) && !preserve(extern)
  {
  }
}
