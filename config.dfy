/** The sorter's configuration: the priority tables the classifier reads, the file
    extensions and attribute names to scan, the built-in defaults, and the in-place
    merge of a user's settings over them. */
module Config {

  /** The configuration object. `Merge` updates it in place; the sorter only reads it. */
  class Config {
    /** Utility prefixes, highest priority first. */
    var ClassOrder: seq<string>
    /** Priority of each named variant keyword. */
    var VariantOrder: map<string, int>
    /** File extensions (with the dot) whose files are processed. */
    var FilePatterns: seq<string>
    /** Attribute names whose quoted values hold class lists. */
    var ClassAttributes: seq<string>

    /** The built-in configuration. */
    constructor Default()
      ensures ClassOrder == DefaultClassOrder && VariantOrder == DefaultVariantOrder
      ensures FilePatterns == [".html"] && ClassAttributes == ["class"]
    {
      ClassOrder := DefaultClassOrder;
      VariantOrder := DefaultVariantOrder;
      FilePatterns := [".html"];
      ClassAttributes := ["class"];
    }

    /** Lays a user's settings over this configuration: each list the user gave
        replaces the current one, an empty list leaves it alone, and the priority
        tables are never touched. */
    method Merge(user: UserConfig)
      modifies this
      ensures FilePatterns == if |user.FilePatterns| > 0 then user.FilePatterns else old(FilePatterns)
      ensures ClassAttributes == if |user.ClassAttributes| > 0 then user.ClassAttributes else old(ClassAttributes)
      ensures ClassOrder == old(ClassOrder) && VariantOrder == old(VariantOrder)
    {
      if |user.FilePatterns| > 0 {
        FilePatterns := user.FilePatterns;
      }
      if |user.ClassAttributes| > 0 {
        ClassAttributes := user.ClassAttributes;
      }
    }
  }

  /** The user-settable part of the configuration, as read from the settings file. */
  datatype UserConfig = UserConfig(FilePatterns: seq<string>, ClassAttributes: seq<string>)

  /** Order given to an arbitrary `[...]` variant by the classifier: after every
      named variant of the default table. */
  const ArbitraryVariantOrder: int := 99

  /** The default utility-prefix priority list, highest priority first: daisyUI
      component classes, then Tailwind utility groups. */
  const DefaultClassOrder: seq<string> :=
    seq(830, i requires 0 <= i < 830 => DefaultClassOrderAt(i))

  /** Entry `i` of the default priority list. */
  function DefaultClassOrderAt(i: nat): string
    requires i < 830
  {
    if i < 59 then DaisyActionsAt(i)
    else if i < 181 then DaisyDataDisplayAt(i)
    else if i < 251 then DaisyNavigationAt(i)
    else if i < 306 then DaisyFeedbackAt(i)
    else if i < 441 then DaisyDataInputAt(i)
    else if i < 509 then DaisyLayoutAt(i)
    else if i < 650 then DaisyColorsAt(i)
    else TailwindUtilitiesAt(i)
  }

  /** Entries 0 to 58 of the default list: daisyUI actions. */
  function DaisyActionsAt(i: nat): string
    requires i < 59
  {
    match i
    // daisyUI Skeleton
    case 0 => "skeleton"
    // daisyUI Button
    case 1 => "btn"
    case 2 => "btn-primary"
    case 3 => "btn-secondary"
    case 4 => "btn-accent"
    case 5 => "btn-neutral"
    case 6 => "btn-info"
    case 7 => "btn-success"
    case 8 => "btn-warning"
    case 9 => "btn-error"
    case 10 => "btn-outline"
    case 11 => "btn-dash"
    case 12 => "btn-soft"
    case 13 => "btn-ghost"
    case 14 => "btn-link"
    case 15 => "btn-active"
    case 16 => "btn-disabled"
    case 17 => "btn-xs"
    case 18 => "btn-sm"
    case 19 => "btn-md"
    case 20 => "btn-lg"
    case 21 => "btn-xl"
    case 22 => "btn-wide"
    case 23 => "btn-block"
    case 24 => "btn-square"
    case 25 => "btn-circle"
    // daisyUI Dropdown
    case 26 => "dropdown"
    case 27 => "dropdown-content"
    case 28 => "dropdown-start"
    case 29 => "dropdown-center"
    case 30 => "dropdown-end"
    case 31 => "dropdown-top"
    case 32 => "dropdown-bottom"
    case 33 => "dropdown-left"
    case 34 => "dropdown-right"
    case 35 => "dropdown-hover"
    case 36 => "dropdown-open"
    // daisyUI Fab / Speed Dial
    case 37 => "fab"
    case 38 => "fab-close"
    case 39 => "fap-main-action"
    case 40 => "fab-flower"
    // daisyUI Modal
    case 41 => "modal"
    case 42 => "modal-box"
    case 43 => "modal-action"
    case 44 => "modal-backdrop"
    case 45 => "modal-toggle"
    case 46 => "modal-open"
    case 47 => "modal-top"
    case 48 => "modal-middle"
    case 49 => "modal-bottom"
    case 50 => "mdoal-start"
    case 51 => "modal-end"
    // daisyUI Swap
    case 52 => "swap"
    case 53 => "swap-on"
    case 54 => "swap-off"
    case 55 => "swap-indeterminate"
    case 56 => "swap-active"
    case 57 => "swap-rotate"
    case 58 => "swap-flip"
    case _ => ""
  }

  /** Entries 59 to 180 of the default list: daisyUI data display. */
  function DaisyDataDisplayAt(i: nat): string
    requires 59 <= i < 181
  {
    match i
    // daisyUI Accordion / Collapse
    case 59 => "collapse"
    case 60 => "collapse-title"
    case 61 => "collapse-content"
    case 62 => "collapse-arrow"
    case 63 => "collapse-plus"
    case 64 => "collapse-open"
    case 65 => "collapse-close"
    // daisyUI Avatar
    case 66 => "avatar"
    case 67 => "avatar-group"
    case 68 => "avatar-online"
    case 69 => "avatar-offline"
    case 70 => "avatar-placeholder"
    // daisyUI Badge
    case 71 => "badge"
    case 72 => "badge-outline"
    case 73 => "badge-dash"
    case 74 => "badge-soft"
    case 75 => "badge-ghost"
    case 76 => "badge-primary"
    case 77 => "badge-secondary"
    case 78 => "badge-accent"
    case 79 => "badge-neutral"
    case 80 => "badge-info"
    case 81 => "badge-success"
    case 82 => "badge-warning"
    case 83 => "badge-error"
    case 84 => "badge-xs"
    case 85 => "badge-sm"
    case 86 => "badge-md"
    case 87 => "badge-lg"
    case 88 => "badge-xl"
    // daisyUI Card
    case 89 => "card"
    case 90 => "card-title"
    case 91 => "card-body"
    case 92 => "card-actions"
    case 93 => "card-border"
    case 94 => "card-dash"
    case 95 => "card-side"
    case 96 => "image-full"
    case 97 => "card-xs"
    case 98 => "card-sm"
    case 99 => "card-md"
    case 100 => "card-lg"
    case 101 => "card-xl"
    // daisyUI Carousel
    case 102 => "carousel"
    case 103 => "carousel-item"
    case 104 => "carousel-start"
    case 105 => "carousel-center"
    case 106 => "carousel-end"
    case 107 => "carousel-horizontal"
    case 108 => "carousel-vertical"
    // daisyUI Chat Bubble
    case 109 => "chat"
    case 110 => "chat-image"
    case 111 => "chat-header"
    case 112 => "chat-footer"
    case 113 => "chat-bubble"
    case 114 => "chat-start"
    case 115 => "chat-end"
    case 116 => "chat-bubble-primary"
    case 117 => "chat-bubble-secondary"
    case 118 => "chat-bubble-accent"
    case 119 => "chat-bubble-neutral"
    case 120 => "chat-bubble-info"
    case 121 => "chat-bubble-success"
    case 122 => "chat-bubble-warning"
    case 123 => "chat-bubble-error"
    // daisyUI Countdown
    case 124 => "countdown"
    // daisyUI Diff
    case 125 => "diff"
    case 126 => "diff-item-1"
    case 127 => "diff-item-2"
    case 128 => "diff-resizer"
    // daisyUI Hover Gallery
    case 129 => "hover-gallery"
    // daisyUI KBD
    case 130 => "kbd"
    case 131 => "kbd-xs"
    case 132 => "kbd-sm"
    case 133 => "kbd-md"
    case 134 => "kbd-lg"
    case 135 => "kbd-xl"
    // daisyUI List
    case 136 => "list"
    case 137 => "list-row"
    case 138 => "list-col-wrap"
    case 139 => "list-col-grow"
    // daisyUI Stat
    case 140 => "stats"
    case 141 => "stat"
    case 142 => "stat-title"
    case 143 => "stat-value"
    case 144 => "stat-desc"
    case 145 => "stat-figure"
    case 146 => "stat-actions"
    case 147 => "stats-horizontal"
    case 148 => "stats-vertical"
    // daisyUI Status
    case 149 => "status"
    case 150 => "status-primary"
    case 151 => "status-secondary"
    case 152 => "status-accent"
    case 153 => "status-neutral"
    case 154 => "status-info"
    case 155 => "status-success"
    case 156 => "status-warning"
    case 157 => "status-error"
    case 158 => "status-xs"
    case 159 => "status-sm"
    case 160 => "status-md"
    case 161 => "status-lg"
    case 162 => "status-xl"
    // daisyUI Table
    case 163 => "table"
    case 164 => "table-zebra"
    case 165 => "table-pin-rows"
    case 166 => "table-pin-cols"
    case 167 => "table-xs"
    case 168 => "table-sm"
    case 169 => "table-md"
    case 170 => "table-lg"
    case 171 => "table-xl"
    // daisyUI Timeline
    case 172 => "timeline"
    case 173 => "timeline-start"
    case 174 => "timeline-middle"
    case 175 => "timeline-end"
    case 176 => "timeline-snap-icon"
    case 177 => "timeline-box"
    case 178 => "timeline-compact"
    case 179 => "timeline-horizontal"
    case 180 => "timeline-vertical"
    case _ => ""
  }

  /** Entries 181 to 250 of the default list: daisyUI navigation. */
  function DaisyNavigationAt(i: nat): string
    requires 181 <= i < 251
  {
    match i
    // daisyUI Breadcrumbs
    case 181 => "breadcrumbs"
    // daisyUI Dock
    case 182 => "dock"
    case 183 => "dock-label"
    case 184 => "dock-active"
    case 185 => "dock-xs"
    case 186 => "dock-sm"
    case 187 => "dock-md"
    case 188 => "dock-lg"
    case 189 => "dock-xl"
    // daisyUI Link
    case 190 => "link"
    case 191 => "link-hover"
    case 192 => "link-primary"
    case 193 => "link-secondary"
    case 194 => "link-accent"
    case 195 => "link-neutral"
    case 196 => "link-success"
    case 197 => "link-info"
    case 198 => "link-warning"
    case 199 => "link-error"
    // daisyUI Menu
    case 200 => "menu"
    case 201 => "menu-title"
    case 202 => "menu-dropdown"
    case 203 => "menu-dropdown-toggle"
    case 204 => "menu-disabled"
    case 205 => "menu-active"
    case 206 => "menu-focus"
    case 207 => "menu-dropdown-show"
    case 208 => "menu-xs"
    case 209 => "menu-sm"
    case 210 => "menu-md"
    case 211 => "menu-lg"
    case 212 => "menu-xl"
    case 213 => "menu-horizontal"
    case 214 => "menu-vertical"
    // daisyUI Navbar
    case 215 => "navbar"
    case 216 => "navbar-start"
    case 217 => "navbar-center"
    case 218 => "navbar-end"
    // daisyUI Pagination / Join
    case 219 => "join"
    case 220 => "join-item"
    case 221 => "join-horizontal"
    case 222 => "join-vertical"
    // daisyUI Steps
    case 223 => "steps"
    case 224 => "step"
    case 225 => "step-icon"
    case 226 => "step-primary"
    case 227 => "step-secondary"
    case 228 => "step-accent"
    case 229 => "step-neutral"
    case 230 => "step-info"
    case 231 => "step-success"
    case 232 => "step-warning"
    case 233 => "step-error"
    case 234 => "step-horizontal"
    case 235 => "step-vertical"
    // daisyUI Tabs
    case 236 => "tabs"
    case 237 => "tab"
    case 238 => "tab-content"
    case 239 => "tabs-box"
    case 240 => "tabs-border"
    case 241 => "tabs-lift"
    case 242 => "tab-active"
    case 243 => "tab-disabled"
    case 244 => "tabs-top"
    case 245 => "tabs-bottom"
    case 246 => "tabs-xs"
    case 247 => "tabs-sm"
    case 248 => "tabs-md"
    case 249 => "tabs-lg"
    case 250 => "tabs-xl"
    case _ => ""
  }

  /** Entries 251 to 305 of the default list: daisyUI feedback. */
  function DaisyFeedbackAt(i: nat): string
    requires 251 <= i < 306
  {
    match i
    // daisyUI Alert
    case 251 => "alert"
    case 252 => "alert-outline"
    case 253 => "alert-dash"
    case 254 => "alert-soft"
    case 255 => "alert-ghost"
    case 256 => "alert-info"
    case 257 => "alert-success"
    case 258 => "alert-warning"
    case 259 => "alert-error"
    case 260 => "alert-horizontal"
    case 261 => "alert-vertical"
    // daisyUI Loading
    case 262 => "loading"
    case 263 => "loading-spinner"
    case 264 => "loading-dots"
    case 265 => "loading-ring"
    case 266 => "loading-ball"
    case 267 => "loading-bars"
    case 268 => "loading-infinity"
    case 269 => "loading-xs"
    case 270 => "loading-sm"
    case 271 => "loading-md"
    case 272 => "loading-lg"
    case 273 => "loading-xl"
    // daisyUI Progress
    case 274 => "progress"
    case 275 => "progress-primary"
    case 276 => "progress-secondary"
    case 277 => "progress-accent"
    case 278 => "progress-neutral"
    case 279 => "progress-info"
    case 280 => "progress-success"
    case 281 => "progress-warning"
    case 282 => "progress-error"
    // daisyUI Radial Progress
    case 283 => "radial-progress"
    // daisyUI Toast
    case 284 => "toast"
    case 285 => "toast-start"
    case 286 => "toast-center"
    case 287 => "toast-end"
    case 288 => "toast-top"
    case 289 => "toast-middle"
    case 290 => "toast-bottom"
    // daisyUI Tooltip
    case 291 => "tooltip"
    case 292 => "tooltip-content"
    case 293 => "tooltip-top"
    case 294 => "tooltip-bottom"
    case 295 => "tooltip-left"
    case 296 => "tooltip-right"
    case 297 => "tooltip-open"
    case 298 => "tooltip-primary"
    case 299 => "tooltip-secondary"
    case 300 => "tooltip-accent"
    case 301 => "tooltip-neutral"
    case 302 => "tooltip-info"
    case 303 => "tooltip-success"
    case 304 => "tooltip-warning"
    case 305 => "tooltip-error"
    case _ => ""
  }

  /** Entries 306 to 440 of the default list: daisyUI data input. */
  function DaisyDataInputAt(i: nat): string
    requires 306 <= i < 441
  {
    match i
    // daisyUI Calendar
    case 306 => "cally"
    case 307 => "pika-single"
    case 308 => "react-day-picker"
    // daisyUI Checkbox
    case 309 => "checkbox"
    case 310 => "checkbox-primary"
    case 311 => "checkbox-secondary"
    case 312 => "checkbox-accent"
    case 313 => "checkbox-neutral"
    case 314 => "checkbox-info"
    case 315 => "checkbox-success"
    case 316 => "checkbox-warning"
    case 317 => "checkbox-error"
    case 318 => "checkbox-xs"
    case 319 => "checkbox-sm"
    case 320 => "checkbox-md"
    case 321 => "checkbox-lg"
    case 322 => "checkbox-xl"
    // daisyUI Fieldset
    case 323 => "fieldset"
    case 324 => "fieldset-legend"
    // daisyUI File Input
    case 325 => "file-input"
    case 326 => "file-input-ghost"
    case 327 => "file-input-primary"
    case 328 => "file-input-secondary"
    case 329 => "file-input-accent"
    case 330 => "file-input-neutral"
    case 331 => "file-input-info"
    case 332 => "file-input-success"
    case 333 => "file-input-warning"
    case 334 => "file-input-error"
    case 335 => "file-input-xs"
    case 336 => "file-input-sm"
    case 337 => "file-input-md"
    case 338 => "file-input-lg"
    case 339 => "file-input-xl"
    // daisyUI Field Filter
    case 340 => "filter"
    case 341 => "filter-reset"
    // daisyUI Label
    case 342 => "label"
    case 343 => "floating-label"
    // daisyUI Radio
    case 344 => "radio"
    case 345 => "radio-primary"
    case 346 => "radio-secondary"
    case 347 => "radio-accent"
    case 348 => "radio-neutral"
    case 349 => "radio-info"
    case 350 => "radio-success"
    case 351 => "radio-warning"
    case 352 => "radio-error"
    case 353 => "radio-xs"
    case 354 => "radio-sm"
    case 355 => "radio-md"
    case 356 => "radio-lg"
    case 357 => "radio-xl"
    // daisyUI Range Slider
    case 358 => "range"
    case 359 => "range-primary"
    case 360 => "range-secondary"
    case 361 => "range-accent"
    case 362 => "range-neutral"
    case 363 => "range-info"
    case 364 => "range-success"
    case 365 => "range-warning"
    case 366 => "range-error"
    case 367 => "range-xs"
    case 368 => "range-sm"
    case 369 => "range-md"
    case 370 => "range-lg"
    case 371 => "range-xl"
    // daisyUI Rating
    case 372 => "rating"
    case 373 => "rating-half"
    case 374 => "rating-hidden"
    case 375 => "rating-xs"
    case 376 => "rating-sm"
    case 377 => "rating-md"
    case 378 => "rating-lg"
    case 379 => "rating-xl"
    // daisyUI Select
    case 380 => "select"
    case 381 => "select-ghost"
    case 382 => "select-primary"
    case 383 => "select-secondary"
    case 384 => "select-accent"
    case 385 => "select-neutral"
    case 386 => "select-info"
    case 387 => "select-success"
    case 388 => "select-warning"
    case 389 => "select-error"
    case 390 => "select-xs"
    case 391 => "select-sm"
    case 392 => "select-md"
    case 393 => "select-lg"
    case 394 => "select-xl"
    // daisyUI Text Input
    case 395 => "input"
    case 396 => "input-ghost"
    case 397 => "input-primary"
    case 398 => "input-secondary"
    case 399 => "input-accent"
    case 400 => "input-neutral"
    case 401 => "input-info"
    case 402 => "input-success"
    case 403 => "input-warning"
    case 404 => "input-error"
    case 405 => "input-xs"
    case 406 => "input-sm"
    case 407 => "input-md"
    case 408 => "input-lg"
    case 409 => "input-xl"
    // daisyUI Textarea
    case 410 => "textarea"
    case 411 => "textarea-ghost"
    case 412 => "textarea-primary"
    case 413 => "textarea-secondary"
    case 414 => "textarea-accent"
    case 415 => "textarea-neutral"
    case 416 => "textarea-info"
    case 417 => "textarea-success"
    case 418 => "textarea-warning"
    case 419 => "textarea-error"
    case 420 => "textarea-xs"
    case 421 => "textarea-sm"
    case 422 => "textarea-md"
    case 423 => "textarea-lg"
    case 424 => "textarea-xl"
    // daisyUI Toggle
    case 425 => "toggle"
    case 426 => "toggle-primary"
    case 427 => "toggle-secondary"
    case 428 => "toggle-accent"
    case 429 => "toggle-neutral"
    case 430 => "toggle-info"
    case 431 => "toggle-success"
    case 432 => "toggle-warning"
    case 433 => "toggle-error"
    case 434 => "toggle-xs"
    case 435 => "toggle-sm"
    case 436 => "toggle-md"
    case 437 => "toggle-lg"
    case 438 => "toggle-xl"
    // daisyUI Validator
    case 439 => "validator"
    case 440 => "validator-hint"
    case _ => ""
  }

  /** Entries 441 to 508 of the default list: daisyUI layout and mockups. */
  function DaisyLayoutAt(i: nat): string
    requires 441 <= i < 509
  {
    match i
    // daisyUI Divider
    case 441 => "divider"
    case 442 => "divider-primary"
    case 443 => "divider-secondary"
    case 444 => "divider-accent"
    case 445 => "divider-neutral"
    case 446 => "divider-info"
    case 447 => "divider-success"
    case 448 => "divider-warning"
    case 449 => "divider-error"
    case 450 => "divider-start"
    case 451 => "divider-end"
    case 452 => "divider-horizontal"
    case 453 => "divider-vertical"
    // daisyUI Drawer
    case 454 => "drawer"
    case 455 => "drawer-toggle"
    case 456 => "drawer-content"
    case 457 => "drawer-side"
    case 458 => "drawer-overlay"
    case 459 => "drawer-end"
    case 460 => "drawer-open"
    case 461 => "is-drawer-open:"
    case 462 => "is-drawer-close:"
    // daisyUI Footer
    case 463 => "footer"
    case 464 => "footer-title"
    case 465 => "footer-center"
    case 466 => "footer-horizontal"
    case 467 => "footer-vertical"
    // daisyUI Hero
    case 468 => "hero"
    case 469 => "hero-content"
    case 470 => "hero-overlay"
    // daisyUI Indicator
    case 471 => "indicator"
    case 472 => "indicator-item"
    case 473 => "indicator-start"
    case 474 => "indicator-center"
    case 475 => "indicator-end"
    case 476 => "indicator-top"
    case 477 => "indicator-middle"
    case 478 => "indicator-bottom"
    // daisyUI Mask
    case 479 => "mask"
    case 480 => "mask-squircle"
    case 481 => "mask-heart"
    case 482 => "mask-hexagon"
    case 483 => "mask-hexagon-2"
    case 484 => "mask-decagon"
    case 485 => "mask-pentagon"
    case 486 => "mask-diamond"
    case 487 => "mask-square"
    case 488 => "mask-circle"
    case 489 => "mask-star"
    case 490 => "mask-star-2"
    case 491 => "mask-triangle"
    case 492 => "mask-triangle-2"
    case 493 => "mask-triangle-3"
    case 494 => "mask-triangle-4"
    case 495 => "mask-half-1"
    case 496 => "mask-half-2"
    // daisyUI Stack
    case 497 => "stack"
    case 498 => "stack-top"
    case 499 => "stack-bottom"
    case 500 => "stack-start"
    case 501 => "stack-end"
    // daisyUI Browser
    case 502 => "mockup-browser"
    case 503 => "mockup-browser-toolbar"
    // daisyUI Code
    case 504 => "mockup-code"
    // daisyUI Phone
    case 505 => "mockup-phone"
    case 506 => "mockup-phone-camera"
    case 507 => "mockup-phone-display"
    // daisyUI Window
    case 508 => "mockup-window"
    case _ => ""
  }

  /** Entries 509 to 649 of the default list: daisyUI colours and theme. */
  function DaisyColorsAt(i: nat): string
    requires 509 <= i < 650
  {
    match i
    // daisyUI Background
    case 509 => "bg-primary"
    case 510 => "bg-secondary"
    case 511 => "bg-accent"
    case 512 => "bg-neutral"
    case 513 => "bg-info"
    case 514 => "bg-success"
    case 515 => "bg-warning"
    case 516 => "bg-error"
    // daisyUI Color Utility
    case 517 => "to-primary"
    case 518 => "to-secondary"
    case 519 => "to-accent"
    case 520 => "to-neutral"
    case 521 => "to-info"
    case 522 => "to-success"
    case 523 => "to-warning"
    case 524 => "to-error"
    case 525 => "via-primary"
    case 526 => "via-secondary"
    case 527 => "via-accent"
    case 528 => "via-neutral"
    case 529 => "via-info"
    case 530 => "via-success"
    case 531 => "via-warning"
    case 532 => "via-error"
    case 533 => "from-primary"
    case 534 => "from-secondary"
    case 535 => "from-accent"
    case 536 => "from-neutral"
    case 537 => "from-info"
    case 538 => "from-success"
    case 539 => "from-warning"
    case 540 => "from-error"
    case 541 => "ring-primary"
    case 542 => "ring-secondary"
    case 543 => "ring-accent"
    case 544 => "ring-neutral"
    case 545 => "ring-info"
    case 546 => "ring-success"
    case 547 => "ring-warning"
    case 548 => "ring-error"
    case 549 => "fill-primary"
    case 550 => "fill-secondary"
    case 551 => "fill-accent"
    case 552 => "fill-neutral"
    case 553 => "fill-info"
    case 554 => "fill-success"
    case 555 => "fill-warning"
    case 556 => "fill-error"
    case 557 => "caret-primary"
    case 558 => "caret-secondary"
    case 559 => "caret-accent"
    case 560 => "caret-neutral"
    case 561 => "caret-info"
    case 562 => "caret-success"
    case 563 => "caret-warning"
    case 564 => "caret-error"
    case 565 => "stroke-primary"
    case 566 => "stroke-secondary"
    case 567 => "stroke-accent"
    case 568 => "stroke-neutral"
    case 569 => "stroke-info"
    case 570 => "stroke-success"
    case 571 => "stroke-warning"
    case 572 => "stroke-error"
    case 573 => "border-primary"
    case 574 => "border-secondary"
    case 575 => "border-accent"
    case 576 => "border-neutral"
    case 577 => "border-info"
    case 578 => "border-success"
    case 579 => "border-warning"
    case 580 => "border-error"
    case 581 => "divide-primary"
    case 582 => "divide-secondary"
    case 583 => "divide-accent"
    case 584 => "divide-neutral"
    case 585 => "divide-info"
    case 586 => "divide-success"
    case 587 => "divide-warning"
    case 588 => "divide-error"
    case 589 => "accent-primary"
    case 590 => "accent-secondary"
    case 591 => "accent-accent"
    case 592 => "accent-neutral"
    case 593 => "accent-info"
    case 594 => "accent-success"
    case 595 => "accent-warning"
    case 596 => "accent-error"
    case 597 => "shadow-primary"
    case 598 => "shadow-secondary"
    case 599 => "shadow-accent"
    case 600 => "shadow-neutral"
    case 601 => "shadow-info"
    case 602 => "shadow-success"
    case 603 => "shadow-warning"
    case 604 => "shadow-error"
    case 605 => "outline-primary"
    case 606 => "outline-secondary"
    case 607 => "outline-accent"
    case 608 => "outline-neutral"
    case 609 => "outline-info"
    case 610 => "outline-success"
    case 611 => "outline-warning"
    case 612 => "outline-error"
    case 613 => "decoration-primary"
    case 614 => "decoration-secondary"
    case 615 => "decoration-accent"
    case 616 => "decoration-neutral"
    case 617 => "decoration-info"
    case 618 => "decoration-success"
    case 619 => "decoration-warning"
    case 620 => "decoration-error"
    case 621 => "placeholder-primary"
    case 622 => "placeholder-secondary"
    case 623 => "placeholder-accent"
    case 624 => "placeholder-neutral"
    case 625 => "placeholder-info"
    case 626 => "placeholder-success"
    case 627 => "placeholder-warning"
    case 628 => "placeholder-error"
    case 629 => "ring-offset-primary"
    case 630 => "ring-offset-secondary"
    case 631 => "ring-offset-accent"
    case 632 => "ring-offset-neutral"
    case 633 => "ring-offset-info"
    case 634 => "ring-offset-success"
    case 635 => "ring-offset-warning"
    case 636 => "ring-offset-error"
    case 637 => "rounded-box"
    case 638 => "rounded-field"
    case 639 => "rounded-selector"
    case 640 => "glass"
    // daisyUI Foreground
    case 641 => "text-primary"
    case 642 => "text-secondary"
    case 643 => "text-accent"
    case 644 => "text-neutral"
    case 645 => "text-info"
    case 646 => "text-success"
    case 647 => "text-warning"
    case 648 => "text-error"
    // daisyUI Theme Controller
    case 649 => "theme-controller"
    case _ => ""
  }

  /** Entries 650 to 829 of the default list: Tailwind utility groups. */
  function TailwindUtilitiesAt(i: nat): string
    requires 650 <= i < 830
  {
    match i
    // Layout (Box Sizing, Display, Floats, Clear, Isolation, Object Fit/Position, Overflow, Overscroll, Position, Visibility, Z-Index)
    case 650 => "box-border"
    case 651 => "box-content"
    case 652 => "block"
    case 653 => "inline-block"
    case 654 => "inline"
    case 655 => "flex"
    case 656 => "inline-flex"
    case 657 => "table"
    case 658 => "inline-table"
    case 659 => "table-caption"
    case 660 => "table-cell"
    case 661 => "table-column"
    case 662 => "table-column-group"
    case 663 => "table-footer-group"
    case 664 => "table-header-group"
    case 665 => "table-row-group"
    case 666 => "table-row"
    case 667 => "flow-root"
    case 668 => "grid"
    case 669 => "inline-grid"
    case 670 => "contents"
    case 671 => "list-item"
    case 672 => "hidden"
    case 673 => "float-"
    case 674 => "clear-"
    case 675 => "isolate"
    case 676 => "isolation-auto"
    case 677 => "object-"
    case 678 => "overflow-"
    case 679 => "overscroll-"
    case 680 => "static"
    case 681 => "fixed"
    case 682 => "absolute"
    case 683 => "relative"
    case 684 => "sticky"
    case 685 => "top-"
    case 686 => "right-"
    case 687 => "bottom-"
    case 688 => "left-"
    case 689 => "inset-"
    case 690 => "visible"
    case 691 => "invisible"
    case 692 => "z-"
    // Flexbox & Grid
    case 693 => "flex-basis-"
    case 694 => "flex-direction-"
    case 695 => "flex-wrap-"
    case 696 => "flex-"
    case 697 => "flex-grow"
    case 698 => "flex-shrink"
    case 699 => "order-"
    case 700 => "grid-cols-"
    case 701 => "grid-col-"
    case 702 => "grid-rows-"
    case 703 => "grid-row-"
    case 704 => "grid-flow-"
    case 705 => "gap-"
    case 706 => "justify-"
    case 707 => "justify-items-"
    case 708 => "justify-self-"
    case 709 => "items-"
    case 710 => "align-"
    case 711 => "place-content-"
    case 712 => "place-items-"
    case 713 => "place-self-"
    // Spacing (Padding, Margin, Space Between)
    case 714 => "p-"
    case 715 => "px-"
    case 716 => "py-"
    case 717 => "pt-"
    case 718 => "pr-"
    case 719 => "pb-"
    case 720 => "pl-"
    case 721 => "m-"
    case 722 => "mx-"
    case 723 => "my-"
    case 724 => "mt-"
    case 725 => "mr-"
    case 726 => "mb-"
    case 727 => "ml-"
    case 728 => "space-"
    // Sizing (Width, Min-Width, Max-Width, Height, Min-Height, Max-Height)
    case 729 => "w-"
    case 730 => "min-w-"
    case 731 => "max-w-"
    case 732 => "h-"
    case 733 => "min-h-"
    case 734 => "max-h-"
    // Typography
    case 735 => "font-"
    case 736 => "text-"
    case 737 => "italic"
    case 738 => "not-italic"
    case 739 => "font-weight-"
    case 740 => "font-variant-numeric-"
    case 741 => "letter-spacing-"
    case 742 => "line-clamp-"
    case 743 => "line-height-"
    case 744 => "list-"
    case 745 => "text-align-"
    case 746 => "text-color-"
    case 747 => "text-decoration-"
    case 748 => "text-decoration-color-"
    case 749 => "text-decoration-style-"
    case 750 => "text-decoration-thickness-"
    case 751 => "text-underline-offset-"
    case 752 => "text-transform-"
    case 753 => "text-overflow-"
    case 754 => "text-indent-"
    case 755 => "vertical-align-"
    case 756 => "whitespace-"
    case 757 => "break-"
    case 758 => "content-"
    // Backgrounds
    case 759 => "bg-"
    case 760 => "bg-opacity-"
    case 761 => "bg-origin-"
    case 762 => "bg-position-"
    case 763 => "bg-repeat-"
    case 764 => "bg-size-"
    case 765 => "bg-image-"
    case 766 => "gradient-to-"
    case 767 => "from-"
    case 768 => "via-"
    case 769 => "to-"
    // Borders
    case 770 => "rounded-"
    case 771 => "border"
    case 772 => "border-"
    case 773 => "border-opacity-"
    case 774 => "border-style-"
    case 775 => "divide-"
    case 776 => "divide-opacity-"
    case 777 => "divide-style-"
    case 778 => "outline-"
    case 779 => "outline-offset-"
    case 780 => "outline-style-"
    case 781 => "ring-"
    case 782 => "ring-offset-"
    case 783 => "ring-opacity-"
    // Effects (Box Shadow, Opacity, Mix Blend, Background Blend)
    case 784 => "shadow-"
    case 785 => "opacity-"
    case 786 => "mix-blend-"
    case 787 => "bg-blend-"
    // Filters (Blur, Brightness, Contrast, Drop Shadow, Grayscale, Hue Rotate, Invert, Saturate, Sepia, Backdrop)
    case 788 => "filter"
    case 789 => "blur-"
    case 790 => "brightness-"
    case 791 => "contrast-"
    case 792 => "drop-shadow-"
    case 793 => "grayscale-"
    case 794 => "hue-rotate-"
    case 795 => "invert-"
    case 796 => "saturate-"
    case 797 => "sepia-"
    case 798 => "backdrop-"
    // Tables
    case 799 => "border-collapse"
    case 800 => "border-spacing-"
    case 801 => "table-layout-"
    case 802 => "caption-side-"
    // Transitions & Animation
    case 803 => "transition"
    case 804 => "duration-"
    case 805 => "ease-"
    case 806 => "delay-"
    case 807 => "animate-"
    // Transforms
    case 808 => "transform"
    case 809 => "scale-"
    case 810 => "rotate-"
    case 811 => "translate-"
    case 812 => "skew-"
    case 813 => "transform-origin-"
    // Interactivity
    case 814 => "accent-"
    case 815 => "appearance-"
    case 816 => "cursor-"
    case 817 => "caret-"
    case 818 => "pointer-events-"
    case 819 => "resize"
    case 820 => "scroll-"
    case 821 => "scroll-snap-"
    case 822 => "touch-"
    case 823 => "select-"
    case 824 => "will-change-"
    // SVG
    case 825 => "fill-"
    case 826 => "stroke-"
    case 827 => "stroke-width-"
    // Screen Readers
    case 828 => "sr-only"
    case 829 => "not-sr-only"
    case _ => ""
  }

  /** The default variant priorities: sparse numbering, 0 to 44. */
  const DefaultVariantOrder: map<string, int> := map[
      "sm" := 0, "md" := 1, "lg" := 2, "xl" := 3, "2xl" := 4, "dark" := 10,
      "motion-safe" := 20, "motion-reduce" := 21, "portrait" := 22, "landscape" := 23,
      "first" := 30, "last" := 31, "odd" := 32, "even" := 33, "visited" := 34, "checked" := 35,
      "disabled" := 36, "enabled" := 37, "hover" := 40, "focus" := 41, "focus-within" := 42,
      "focus-visible" := 43, "active" := 44
  ]

  /** Every named variant has a default priority between 0 and 44, so it sorts
      before any arbitrary `[...]` variant. */
  lemma DefaultVariantOrderBelowArbitrary()
    ensures forall k :: k in DefaultVariantOrder ==> 0 <= DefaultVariantOrder[k] <= 44 < ArbitraryVariantOrder
  {
  }

  /** The built-in list names "table" twice, under daisyUI Table and under Tailwind
      Layout; only the first can ever be matched. */
  lemma DefaultClassOrderTableTwice()
    ensures DefaultClassOrder[163] == "table" && DefaultClassOrder[657] == "table"
  {
    assert DefaultClassOrder[163] == DefaultClassOrderAt(163);
    assert DefaultClassOrder[657] == DefaultClassOrderAt(657);
  }

  /** The built-in list names "filter" twice, under daisyUI Filter and under Tailwind
      Filters; only the first can ever be matched. */
  lemma DefaultClassOrderFilterTwice()
    ensures DefaultClassOrder[340] == "filter" && DefaultClassOrder[788] == "filter"
  {
    assert DefaultClassOrder[340] == DefaultClassOrderAt(340);
    assert DefaultClassOrder[788] == DefaultClassOrderAt(788);
  }

  /** The list opens with "skeleton", then "btn" ahead of its colour forms such as
      "btn-primary", which it therefore shadows. */
  lemma DefaultClassOrderButton()
    ensures DefaultClassOrder[1] == "btn" && DefaultClassOrder[2] == "btn-primary"
  {
    assert DefaultClassOrder[1] == DefaultClassOrderAt(1);
    assert DefaultClassOrder[2] == DefaultClassOrderAt(2);
  }

  /** No named variant of the default table looks like an arbitrary `[...]` variant. */
  lemma DefaultVariantNamesPlain()
    ensures forall k :: k in DefaultVariantOrder ==> |k| > 0 && k[0] != '['
  {
  }
}
