# Ustadex navigation bar, modelled in Dafny

The Ustadex website shares one navigation bar across all its pages. A
script (`js/navigation.js`) builds the bar on every page load and wires
up two mobile toggles. This project models the logic under the markup:

- **Where the page sits** (`getBasePath`). A path containing `/industry/`
  or `/page/` is one directory below the site root and gets the prefix
  `../`. Every other path gets `./`.
- **Which logo it shows** (`getLogoPath`). The script takes the last
  `/`-separated segment of the path. On an industry page, if that segment
  names one of the six industry pages, the page gets that industry's logo.
  Otherwise it gets the home logo, except for file names inherited from
  `Object.prototype` (see Findings); the model's `Paths.LogoPath` is the
  corrected lookup. The logo path is always prefixed by the base path.
- **Which industry links it renders.** The fixed `industries` table is mapped
  twice: into the desktop dropdown and into the mobile submenu. Each entry
  becomes `<base>industry/<file>` with the industry's name as link text. The
  desktop and mobile link rows around these lists are modelled too.
- **The mobile toggles.** Four `hidden` classes act as flags: panel,
  hamburger icon, close icon and industry submenu. The menu button flips the
  first three. The industry button flips the submenu.

The page path is a parameter. The script reads it from
`window.location.pathname`.

Modules:

- `Text` (text.dfy) models JavaScript's `includes`, `split('/')`, `join('/')`
  and `pop()` on strings. Each is proved against a reference meaning.
- `Paths` (paths.dfy) holds the base path, the logo table and the logo
  choice. It also holds the as-written property lookup described under
  Findings.
- `Navigation` (navigation.dfy) holds the industry table and the rendered
  link lists.
- `MobileMenu` (menu_state.dfy) holds the four-flag toggle state machine.

The script toggles four separate `hidden` classes, so the model keeps four
flags and proves that the icon flags always agree with the panel flag
(`MobileMenu.ReachableIffIconsAgree`).

## Model

| member | source | states |
|---|---|---|
| Text.ContainsMeansOccurs | js/navigation.js:22-24 | `includes` is true exactly when the substring occurs at some index of the path, in both directions |
| Text.Split | js/navigation.js:48 | `split('/')` yields at least one piece and no piece contains a slash |
| Text.JoinSplit | js/navigation.js:48 | joining the pieces of `split('/')` with slashes gives back the path, so no character is lost |
| Text.SplitJoin | js/navigation.js:48 | splitting a join of slash-free pieces gives back exactly those pieces |
| Text.LastSegmentIsFinalComponent | js/navigation.js:48 | `split('/').pop()` is a slash-free suffix of the path that is either the whole path or directly preceded by a slash |
| Text.LastSegmentAfterSlash | js/navigation.js:48 | the piece after the final slash is exactly what `pop()` returns |
| Text.LastSegmentOfPlainName | js/navigation.js:48 | a path with no slash is its own last segment |
| Text.LastSegmentOfDirectory | js/navigation.js:48 | a path ending in a slash has an empty last segment |
| Paths.BasePath | js/navigation.js:20-29 | the prefix is `../` exactly when `/industry/` or `/page/` occurs in the path, and `./` exactly when neither occurs |
| Paths.BasePathCheckOrderIrrelevant | js/navigation.js:22-25 | testing `/page/` before `/industry/` gives the same prefix for every path |
| Paths.LogoPath | js/navigation.js:32-56 | the result starts with the base path; it is `../` plus the mapped logo when the path contains `/industry/` and its last segment is a table key, and the base path plus the home logo in every other case |
| Paths.LogoPathIsAsset | js/navigation.js:37-55 | after the base prefix, the logo is always one of the six industry logos or the home logo |
| Paths.IndustryPageShowsItsLogo | js/navigation.js:47-51 | the page `<dir>/industry/<file>` of a mapped file shows `../` plus that file's logo, whatever `<dir>` is |
| Paths.UnmappedIndustryPageShowsHomeLogo | js/navigation.js:47-55 | under the corrected lookup, an industry page whose file is not in the table shows `../logos/home_logo.png`; as written this fails for inherited member names (see Findings) |
| Paths.DirectoryShowsDefaultLogo | js/navigation.js:48-55 | a path ending in a slash never matches a table key and shows the home logo |
| Paths.RootPageShowsHomeLogo | js/navigation.js:54-55 | a path with neither marker shows `./logos/home_logo.png` |
| Paths.UniversityPageLogo | js/navigation.js:37-51 | `/industry/university.html`, below any directory, shows `../logos/university_logo.png` |
| Paths.LogoPathAsWritten | js/navigation.js:47-55 | the lookup as written, which also reads inherited members; its result still starts with the base path |
| Paths.AsWrittenDiffersOnlyOnInheritedNames | js/navigation.js:49-50 | the written lookup and the intended one differ exactly on industry paths whose last segment is an inherited member name of a plain object |
| Paths.ConstructorPageLeaksObjectSource | js/navigation.js:49-50 | for `/industry/constructor` the written lookup renders the source text of `Object`, where the intended one renders `../logos/home_logo.png` |
| Navigation.IndustriesMatchLogoMap | js/navigation.js:10-44 | the `industries` files and the logo table keys are the same six names, and no file appears twice in `industries` |
| Navigation.DropdownLinkTargetsEntry | js/navigation.js:94-98 | dropdown entry `i` carries industry `i`'s name, starts with the base path, continues with `industry/<file>`, and its last segment is the file |
| Navigation.IndustryListsAgree | js/navigation.js:94-149 | the desktop dropdown and the mobile submenu list the same targets and texts in the same order |
| Navigation.DropdownLinkShowsItsLogo | js/navigation.js:94-98 | the page a dropdown entry leads to shows that industry's own logo |
| Navigation.GenerateNavigation | js/navigation.js:59-168 | the brand image is the page's logo and the brand link goes to the base path's `index.html`; each row is Home (`index.html`), then the industry list in table order, then Pricing, Contact Us and Book Demo (`page/pricing.html`, `page/contactus.html`, `page/BookDemo.html`), all behind the base path |
| Navigation.RowLinksTargetSitePages | js/navigation.js:80-114 | every desktop-row link starts with the base path, and it leads to one of the four fixed site pages exactly when it lies outside the industry list |
| Navigation.NavigationRowsAgree | js/navigation.js:78-163 | the desktop and mobile rows hold the same links in the same order, and every link starts with the page's base path |
| MobileMenu.ToggleMenu | js/navigation.js:191-196 | the menu button flips the panel and both icons and leaves the submenu alone |
| MobileMenu.ToggleSubmenu | js/navigation.js:204-206 | the industry button flips the submenu and leaves the panel and both icons alone |
| MobileMenu.FirstMenuClickOpens | js/navigation.js:121-196 | from the rendered classes, one press shows the panel and the close icon and hides the hamburger; a second press restores the rendered classes |
| MobileMenu.ToggleMenuInvolution | js/navigation.js:193-195 | pressing the menu button twice restores any state |
| MobileMenu.ToggleSubmenuInvolution | js/navigation.js:205 | pressing the industry button twice restores any state |
| MobileMenu.TogglesCommute | js/navigation.js:191-206 | the two buttons commute |
| MobileMenu.TogglesPreserveIconAgreement | js/navigation.js:191-206 | neither toggle can make or break agreement between icons and panel |
| MobileMenu.RunFlipsByPressCount | js/navigation.js:190-207 | after any press sequence each flag is its start value flipped once per press of its own button |
| MobileMenu.ReachableIffIconsAgree | js/navigation.js:123-207 | a state is reachable from the rendered classes exactly when the close icon shows iff the panel shows and the hamburger shows iff it is hidden; all four such states are reachable |

## Left out

- Reading `window.location.pathname`: the path is a parameter of every function.
- The markup text, utility class names and SVG icons of `generateNavigation`. Only each anchor's target and text are kept.
- The DOM plumbing is not modelled: finding or creating the `main-navigation` container, `insertBefore`, the `innerHTML` overwrite and the `getElementById` lookups. They depend on a browser document. Because the model is a pure function of the path, mounting twice gives the same links by construction.
- The element-presence guards around the two listeners. The toggles are modelled with every element present, and the rendered markup always contains them. The script guards only the button and the panel, not the two icons.
- Listener registration and the `readyState` / `DOMContentLoaded` scheduling are event-loop wiring and are not modelled.
- The unused `isHidden` local in the menu handler.
- The `<img>` alt text and the brand text. The brand anchor is kept with the text "Ustadex Analytics".
- Percent-encoding of the path: the path is taken as the browser reports it.

## Findings

| source | as written | input that shows it | evidently intended | confidence | as-written member | corrected member |
|---|---|---|---|---|---|---|
| js/navigation.js:49-50 | `logoMap[fileName]` reads a plain object, so it also finds members inherited from `Object.prototype`. These members (`constructor`, `toString`, `__proto__`, ...) are truthy, and their text is spliced into the logo path | the path `/industry/constructor` gives `../function Object() { [native code] }` | a file name that is not one of the six industry pages shows the home logo | not executed; the lookup semantics are standard JavaScript, while the exact text of a native function depends on the engine | Paths.ConstructorPageLeaksObjectSource | Paths.LogoPath |

The rest of the model uses the corrected lookup, `Paths.LogoPath`, which
consults only the table's own keys; `Paths.LogoPathIsAsset` proves that its
result is always the base path followed by a real logo asset. `Paths.AsWrittenDiffersOnlyOnInheritedNames`
proves that the two lookups differ only on the inherited member names.
