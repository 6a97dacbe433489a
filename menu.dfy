/** The mobile navigation menu: a panel that is either hidden or shown. */
module MobileMenu {

  class Menu {
    var hidden: bool

    constructor (initiallyHidden: bool)
      ensures hidden == initiallyHidden
    {
      hidden := initiallyHidden;
    }

    /** The toggle control flips the panel between hidden and shown. */
    method OnToggleClick()
      modifies this
      ensures hidden == !old(hidden)
    {
      hidden := !hidden;
    }

    /** Choosing a link inside the panel hides it. */
    method OnLinkClick()
      modifies this
      ensures hidden
    {
      hidden := true;
    }

    /** A click anywhere in the document hides a shown panel when it lands neither
        inside the panel nor on the toggle control; otherwise nothing changes. */
    method OnDocumentClick(insideMenu: bool, onToggle: bool)
      modifies this
      ensures !insideMenu && !onToggle ==> hidden
      ensures insideMenu || onToggle ==> hidden == old(hidden)
    {
      if !insideMenu && !onToggle && !hidden {
        hidden := true;
      }
    }
  }
}
