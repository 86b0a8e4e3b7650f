# eq-cir-management-ui in Dafny

A model of the pure, sequential logic inside the EQ CIR management UI, a small Flask front end. Four parts are modelled:

- **The error-panel builders** (`utils/jinja_functions.py`). They turn a WTForms error mapping into the `{url, text}` entries of the design system's error panel. The mapping is an association list of field names. Each value is a list of messages, a list of message lists (one per FieldList row), or a nested mapping (a FormField). `create_error_panel_data` and `create_ordered_error_panel_data` are methods with the source's loops and its recursion. Each is proved equal to a specification function, and the panel's properties are lemmas about those functions. `get_field_error` is a function. The exceptions Python would raise on odd input are kept as results (`KeyError` or `AttributeError`).
- **The configuration resolver** (`config/config.py`). The three configuration classes become one `Settings` record per variant. `get_config` is a total function from the process environment, passed in as a map, to the chosen variant.
- **The error responders** (`errors/routes.py`). The six handlers form one table from status code to the log record, template, page title and status they return. Rendering and logging are replaced by those values.
- **The application factory's computed values** (`__init__.py`). This covers the design-system version sanitiser, the `env_override` Jinja filter, the content security policy and the other arguments given to Flask-Talisman.

`get_config` lower-cases `RUNTIME_ENVIRONMENT` before matching (`config/config.py:37`), and the model does the same.

Files: `wrappers.dfy` (module `Wrappers`: the shared `Option`), `strings.dfy` (module `Strings`: decimal rendering, `str.split`, ASCII lower-casing), `error_panel.dfy` (`ErrorPanel`), `config.dfy` (`Config`), `error_handlers.dfy` (`ErrorHandlers`), `app_factory.dfy` (`AppFactory`).

## Model

| member | source | states |
|---|---|---|
| `ErrorPanel.CreateErrorPanelData` | eq_cir_management_ui/utils/jinja_functions.py:4-44 | The loops and the recursion return exactly `PanelData(form_errors, parent_string, error_order)`: the mapping's own order when `error_order` is empty, otherwise the named fields present in the mapping, in `error_order` sequence. |
| `ErrorPanel.CreateOrderedErrorPanelData` | eq_cir_management_ui/utils/jinja_functions.py:47-55 | Returns the default-order panel (no parent) regrouped by the listed urls. Each url gets its matching entries, in panel order. |
| `ErrorPanel.Lookup` | eq_cir_management_ui/utils/jinja_functions.py:13-14 | A key is found exactly when some pair has it, and the value found belongs to a pair of the mapping with that key. |
| `ErrorPanel.LookupDistinct` | eq_cir_management_ui/utils/jinja_functions.py:13-14 | With distinct keys, as in a dict, a lookup returns that key's own value. |
| `ErrorPanel.ExplicitOrderStep` | eq_cir_management_ui/utils/jinja_functions.py:9-18 | With an explicit order, one name gives that field's entries, or nothing when the mapping lacks the name. Adding a name to the order appends that field's entries. |
| `ErrorPanel.OrderConcat` | eq_cir_management_ui/utils/jinja_functions.py:9-18 | The panel for two non-empty orders joined together is the two panels joined together. |
| `ErrorPanel.UnnamedFieldIgnored` | eq_cir_management_ui/utils/jinja_functions.py:11-15 | With an explicit order, removing a field the order does not name leaves the panel unchanged. |
| `ErrorPanel.FullOrderMatchesDefault` | eq_cir_management_ui/utils/jinja_functions.py:11-18 | For a dict, listing every key in its own order gives the same panel as giving no order. |
| `ErrorPanel.FieldContribution` | eq_cir_management_ui/utils/jinja_functions.py:23-42 | A message list gives one entry exactly when it is non-empty, and only its first message is used. Its url is `#{parent}-{field}_error` under a non-empty parent and `#{field}_error` otherwise. A list of rows ignores the parent. A nested mapping gives its own default-order panel with the field name as parent. |
| `ErrorPanel.NestedAppended` | eq_cir_management_ui/utils/jinja_functions.py:40-42 | A nested mapping's entries come after all entries of the earlier fields. |
| `ErrorPanel.SublistEntriesSpec` | eq_cir_management_ui/utils/jinja_functions.py:34-39 | A list of message lists gives exactly one entry per row whose first message is non-empty. The entry is `#{field}-{i}_error` with that message, where i is the row's 1-based position, and skipped rows still count. There are no other entries. |
| `ErrorPanel.SublistUrlInjective` | eq_cir_management_ui/utils/jinja_functions.py:38 | Two rows of one field never share an anchor. |
| `ErrorPanel.PanelEmptyIff` | eq_cir_management_ui/utils/jinja_functions.py:23-42 | The panel is empty exactly when no field, at any depth, holds a non-empty message list or a row with a non-empty first message. |
| `ErrorPanel.PanelAnchors` | eq_cir_management_ui/utils/jinja_functions.py:28-38 | Every url on the panel, for any order and at any depth, has the form `#..._error`. |
| `ErrorPanel.OrderedPanelCount` | eq_cir_management_ui/utils/jinja_functions.py:50-53 | An entry appears in the ordered panel (its count in the panel) × (how often its url is listed) times. It is dropped when its url is unlisted and repeated when its url is listed twice. |
| `ErrorPanel.OrderedPanelMembers` | eq_cir_management_ui/utils/jinja_functions.py:50-53 | An entry is in the ordered panel exactly when it is in the panel and its url is listed. |
| `ErrorPanel.GetFieldError` | eq_cir_management_ui/utils/jinja_functions.py:58-85 | Whenever an error is returned, its id is the whole `field_id` followed by `_error`. |
| `ErrorPanel.DirectFieldError` | eq_cir_management_ui/utils/jinja_functions.py:76-83 | Looking the whole id up gives None exactly when the entry is missing or empty. A message list gives `{field_id}_error` with its first message. A nested mapping, indexed with 0, raises KeyError, and nothing else raises. |
| `ErrorPanel.NestedFieldError` | eq_cir_management_ui/utils/jinja_functions.py:71-75 | Given the outer and inner keys, any returned error has the id `{field_id}_error`. A non-empty outer entry that is not a mapping raises AttributeError (`.get` on a list). The result is None exactly when the outer entry is missing or empty, or when it is a mapping whose inner entry is missing or empty. |
| `ErrorPanel.UndashedFieldError` | eq_cir_management_ui/utils/jinja_functions.py:76-83 | Without a dash, or for a mapping that is not exactly a dict, a non-empty message list gives `{field_id}_error` with its first message. An empty list or a missing field gives None. |
| `ErrorPanel.DashedFieldError` | eq_cir_management_ui/utils/jinja_functions.py:66-75 | With a dash and a dict, the outer key is the text before the first dash and the inner key is the text between the first two dashes. Any further text is ignored for the lookup but kept in the id. A missing or empty outer entry gives None. A non-empty outer entry that is not a mapping raises AttributeError. Inside a nested mapping, a missing or empty inner entry gives None, and a non-empty message list gives its first message. |
| `ErrorPanel.PanelLinksToFieldError` | eq_cir_management_ui/utils/jinja_functions.py:76-79 | For a top-level message field, the panel's url is `#` followed by the id `get_field_error` returns, with the same text. |
| `ErrorPanel.NestedPanelLinksToFieldError` | eq_cir_management_ui/utils/jinja_functions.py:66-75 | The same holds for a message field of a nested form whose name is non-empty, using the id `{form}-{field}`. |
| `ErrorPanel.RowAnchorRaises` | eq_cir_management_ui/utils/jinja_functions.py:66-73 | For a row of a list of message lists, the panel links to `#{field}-{n}_error`. Yet `get_field_error("{field}-{n}")` calls `.get` on a list and raises AttributeError. |
| `Strings.DecimalRoundTrip` | eq_cir_management_ui/utils/jinja_functions.py:38 | The decimal text of a row index reads back as the same index. |
| `Strings.SplitJoin` | eq_cir_management_ui/utils/jinja_functions.py:68-69 | `split("-")` pieces joined with `-` give back the id, and no piece contains a dash. |
| `Strings.Split` | eq_cir_management_ui/utils/jinja_functions.py:68-69 | `split("-")` gives one more piece than the id has dashes, empty pieces included. |
| `Strings.SplitAtLeastTwo` | eq_cir_management_ui/utils/jinja_functions.py:67-69 | An id holding a dash splits into at least two pieces, so the lookup's index 1 exists. |
| `Config.GetConfig` | eq_cir_management_ui/config/config.py:35-45 | The lower-cased `RUNTIME_ENVIRONMENT` (`""` when unset) selects DeployedConfig exactly for `dev` or `staging`, ProdConfig exactly for `prod`, and DefaultConfig for everything else. It is total. |
| `Config.DefaultSettings` | eq_cir_management_ui/config/config.py:8-15 | LOG_FORMAT, LOG_LEVEL and CDN_URL take the variable's value when it is set, even to `""`. Otherwise they take `JSON`, `INFO` and `https://cdn.ons.gov.uk`. The session cookie is not marked secure. |
| `Config.DeployedSettings` | eq_cir_management_ui/config/config.py:18-24 | LOG_FORMAT is `JSON` whatever the environment says. Every other attribute is the default class's. |
| `Config.ProdSettings` | eq_cir_management_ui/config/config.py:27-32 | Like DeployedConfig: LOG_FORMAT is `JSON` and every other attribute is the default class's. |
| `Config.RuntimeEnvironment` | eq_cir_management_ui/config/config.py:37 | `""` when RUNTIME_ENVIRONMENT is unset. Otherwise it has the value's length and no upper-case ASCII letter. |
| `Config.SelectionIgnoresCase` | eq_cir_management_ui/config/config.py:37 | Two values that lower-case alike select the same variant with the same settings. |
| `Config.DevAndStagingSelectDeployed` | eq_cir_management_ui/config/config.py:39-41 | `dev` and `staging` select DeployedConfig. |
| `Config.ProdSelectsProd` | eq_cir_management_ui/config/config.py:37-43 | `prod` and `PROD` select ProdConfig. |
| `Config.OthersSelectDefault` | eq_cir_management_ui/config/config.py:37-45 | An unknown value and an unset variable select DefaultConfig. |
| `Config.VariantSettings` | eq_cir_management_ui/config/config.py:8-32 | Every variant takes LOG_LEVEL and CDN_URL from the environment, with the defaults, and has `SESSION_COOKIE_SECURE = False`. LOG_FORMAT follows the environment only in DefaultConfig and is `"JSON"` otherwise. ProdConfig's settings equal DeployedConfig's. |
| `Config.DeployedIgnoresLogFormat` | eq_cir_management_ui/config/config.py:18-32 | DeployedConfig and ProdConfig are the same whatever LOG_FORMAT is set to. |
| `Config.UnsetEnvironmentDefaults` | eq_cir_management_ui/config/config.py:11-15 | With no variables set, every variant is `JSON`, `INFO`, `https://cdn.ons.gov.uk`, with an insecure cookie. |
| `ErrorHandlers.LogException` | eq_cir_management_ui/errors/routes.py:19-28 | The severity is warning exactly when the status code is below 500. The record carries the request url and the status code. |
| `ErrorHandlers.HandleError` | eq_cir_management_ui/errors/routes.py:31-90 | Exactly the six codes 400, 401, 403, 404, 405 and 500 have a handler. Each handler returns its own code as the status, and logs that code and the url through `log_exception`. The page title is "Unauthorised" for 401, "Forbidden" for 403, "Page not found" for 404 and 405, and "Internal Server Error" for 400 and 500. |
| `ErrorHandlers.HandlersKeepStatus` | eq_cir_management_ui/errors/routes.py:31-90 | Exactly 400, 401, 403, 404, 405 and 500 have handlers. Each returns the status it handles and logs once, with that same status and the request url, at warning below 500. |
| `ErrorHandlers.TemplateNames` | eq_cir_management_ui/errors/routes.py:31-90 | Each handler renders `errors/<code>.html` for its own code, except that 400 renders the 500 page and 405 the 404 page. |
| `ErrorHandlers.TitleFollowsTemplate` | eq_cir_management_ui/errors/routes.py:38-90 | Two handlers that render the same template give the same page title. |
| `ErrorHandlers.BorrowedPages` | eq_cir_management_ui/errors/routes.py:31-80 | 400 borrows the 500 page and its title "Internal Server Error", and 405 borrows the 404 page and "Page not found". Both keep their own status. |
| `AppFactory.SanitiseVersion` | eq_cir_management_ui/__init__.py:73 | The result holds only digits and dots, and it is no longer than the input. |
| `AppFactory.SanitiseAppend` | eq_cir_management_ui/__init__.py:73 | Sanitising a concatenation sanitises each part in turn, so the kept characters stay in their original order. |
| `AppFactory.SanitiseCounts` | eq_cir_management_ui/__init__.py:73 | Each digit and dot is kept as often as it occurs, and any other character is dropped. |
| `AppFactory.SanitiseFixedPoint` | eq_cir_management_ui/__init__.py:73 | A version is left unchanged exactly when it holds only digits and dots. |
| `AppFactory.SanitiseIdempotent` | eq_cir_management_ui/__init__.py:73 | Sanitising twice is the same as sanitising once. |
| `AppFactory.SanitiseKeepsRelease` | eq_cir_management_ui/__init__.py:73 | `1.2.3` is left as it is. |
| `AppFactory.SanitiseDropsRange` | eq_cir_management_ui/__init__.py:73 | The npm range `^72.10.4` becomes `72.10.4`. |
| `AppFactory.WithDesignSystemVersion` | eq_cir_management_ui/__init__.py:73-75 | Storing the version adds DESIGN_SYSTEM_VERSION to the environment and leaves every other variable as it was. The stored value holds only digits and dots. |
| `AppFactory.EnvOverride` | eq_cir_management_ui/__init__.py:78-79 | A variable that is set, even to `""`, gives its value. An unset one gives the filter's fallback. |
| `AppFactory.FilterSeesVersion` | eq_cir_management_ui/__init__.py:75-79 | After the version is stored, `env_override` for DESIGN_SYSTEM_VERSION gives the sanitised version whatever fallback is passed. Other keys read as before. A set variable wins over the fallback, and an unset one gives the fallback. |
| `AppFactory.ContentSecurityPolicy` | eq_cir_management_ui/__init__.py:89-109 | The policy has ten directives with distinct names. |
| `AppFactory.CdnOnlyInContentDirectives` | eq_cir_management_ui/__init__.py:89-109 | The CDN url is in a directive exactly when that directive is default-src, font-src, script-src or style-src. This holds whenever the url differs from the policy's other sources. |
| `AppFactory.AnalyticsOnlyInScriptAndConnect` | eq_cir_management_ui/__init__.py:92-103 | The googletagmanager and google-analytics hosts are in a directive exactly when it is script-src or connect-src. |
| `AppFactory.LockedDirectives` | eq_cir_management_ui/__init__.py:89-109 | object-src and base-uri are exactly `'none'`, and frame-src is empty. Every other directive lists `'self'` first. |
| `AppFactory.SecureHeaders` | eq_cir_management_ui/__init__.py:110-118 | HSTS is on with a max-age of 365 days. Framing is denied and HTTPS is not forced. The session-cookie flag comes from the configuration, and the policy is the one built from the configured CDN url. |
| `AppFactory.HeadersForEveryEnvironment` | eq_cir_management_ui/__init__.py:110-118 | For every environment, HSTS is on with max-age 365 × 86400, frame options are DENY, force_https is off, and the session cookie is not secure. The policy uses the configured CDN url. |

## Left out

- Application wiring in `__init__.py` is not modelled: `create_app`, blueprint registration, the Jinja loaders and whitespace flags, and the `talisman.init_app` call itself. They are framework plumbing. Only the values handed to them are modelled.
- `design_system_config` reads `package.json` from disk and writes `os.environ`. The model takes the version string as a parameter and returns the updated environment as a value (`WithDesignSystemVersion`).
- `str.isnumeric` is modelled as the ASCII digits. Python also keeps other Unicode numeric characters, such as `²`, `½` or Devanagari digits. Those are not modelled.
- `str.lower` is modelled on ASCII letters only. This does not change which configuration is selected, because no non-ASCII character lower-cases to a letter of `dev`, `staging` or `prod`.
- The configuration classes read the environment when the module is imported, while `get_config` reads it when called. The model uses one environment for both, which matches the import-time call at `config/config.py:49`.
- Template rendering, the HTML pages, and the logger's output (including `exc_info`) are not modelled. A handler's result records the template name, page title, status and the one log record.
- Error values other than WTForms' shapes are not modelled. These are a bare string, a list whose first element is neither a string nor a list, and a list that mixes strings and lists. In the model, a list is all messages or all rows.
- A `form_errors` argument that is not a mapping (for instance `None`, where `.get` itself fails) is not modelled.
- `main/routes.py`, `forms/validation_version_form.py`, `utils/routes.py`, `app.py`, `eq_cir_management_ui/app.py`, `gunicorn_config.py` and the blueprint `__init__.py` files are not part of this model. They are thin request handlers, a WTForms field declaration, `abort()` triggers and server configuration, all built on framework behaviour outside this code.
- `AppFactory.CdnOnlyInContentDirectives`: the source states no condition. The lemma requires the CDN url to differ from `'self'`, `'none'`, `data:` and the two analytics hosts, because otherwise the url would also appear in other directives.
- `AppFactory.AnalyticsOnlyInScriptAndConnect`: requires the CDN url not to be an analytics host, for the same reason.
- `ErrorPanel.NestedPanelLinksToFieldError`: requires a non-empty form name. A nested form under an empty name is anchored at `#{field}_error`, without the dash.
