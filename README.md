# Campus-Cloud in Dafny

Campus-Cloud is a self-service portal for a campus Proxmox VE cluster. Students
ask for a virtual machine or a Linux container, an administrator approves or
rejects the request, and approval provisions the guest on the hypervisor. Users
then reach their guests through a browser terminal (the Proxmox termproxy text
protocol over a WebSocket) or a VNC console.

This project models the decision logic of that system and proves what it
promises:

- **Backend.** The user and VM request schemas with their field rules and
  defaults; the two in-memory tables (`RequestTable`, `ResourceTable`) with
  their create, lookup, listing, update and delete operations; the route
  dependencies that look a guest up in the cluster list; and the resource,
  machine, VM, container and VM request endpoints. The hypervisor is a
  `Client` that records every call it is asked to make, first-failure
  included. Which call raises, and how, is a parameter (`fails`). A plan of
  calls therefore shows up in the log as the prefix up to and including the
  failing call. Python's `uuid.UUID` parsing (`int(text, 16)` on what is left after stripping), `x or default` truthiness and
  `KeyError` messages are written out.
- **Frontend.** The creation and request forms, the user forms and the
  account pages, each as its list of zod findings in field order, with
  lemmas saying exactly when a form is accepted and what body it sends. Also
  the power-action table, the uptime column and language selection. Then the
  template gallery: its list, filter, badges, note markup and install
  command.
- **Console sessions.** The terminal hook (`XTermDisplay.TerminalSession`)
  and the VNC hook (`NoVNCDisplay`) are classes with one method per
  callback, and so are their host dialogs. Each method's contract gives the
  whole new state. The termproxy frames (`0:<bytes>:<data>`,
  `1:<cols>:<rows>:`, `2`) are rendered by functions and read back by an
  independent parser, and the byte count is the UTF-8 length of section 3 of
  RFC 3629.

JavaScript string lengths count UTF-16 code units; Python's count
characters. The model keeps the two apart (`Utf8.Utf16Len` against `|s|`).
That difference is why some forms the browser accepts are refused by the
backend: `CreateVmRequest.AstralReasonRefused` and
`FormRules.AstralPasswordRefused`. The request dialog also has no cap on the
host name, while the backend allows at most 63 characters
(`CreateVmRequest.LongNameRefused`). JavaScript's truncating `%` is
`ItemColumns.JsRem`. Dafny's Euclidean `%` is not used for it.

## Model

| member | source | states |
|---|---|---|
| Hypervisor.Attempted | backend/app/api/routes/vm_requests.py:190-213 | the calls issued are a prefix of the plan: all of them, or those up to the one that raises |
| Hypervisor.AttemptedShape | backend/app/api/routes/vm_requests.py:190-213 | a plan without a failing call is issued in full; otherwise it stops at the first call that raises, and every call before it returned |
| Hypervisor.AttemptedAppend | backend/app/api/routes/vm_requests.py:255-335 | a plan issued in two parts stops in the first part when that part fails, and otherwise goes on with the second |
| Hypervisor.Client.constructor | backend/app/core/proxmox.py:11-18 | a new client has issued no call yet |
| Hypervisor.Client.Issue | backend/app/core/proxmox.py:11-18 | one call is logged and answers as the failure script says |
| Hypervisor.Client.Run | backend/app/api/routes/vm_requests.py:190-213 | the calls are issued in order up to the first that raises; the log grows by exactly those calls, and the fault returned is that call's |
| ProxmoxDeps.FirstByVmid | backend/app/api/deps/proxmox.py:15-23 | the answer is the first entry with the vmid; 404 exactly when no entry has it |
| ProxmoxDeps.LxcInfo | backend/app/api/deps/proxmox.py:31-45 | the answer is the first entry with the vmid and type `lxc`, reached before any entry with that vmid and no type; 404 exactly when no entry with that vmid is a container or lacks a type |
| ProxmoxDeps.GetVmInfo | backend/app/api/deps/proxmox.py:11-25 | `get_vm_info` answers the lookup: the first entry with the vmid, 404 without one, 500 when the listing raises |
| ProxmoxDeps.GetLxcInfo | backend/app/api/deps/proxmox.py:31-45 | `get_lxc_info` answers the container lookup, and 500 when an entry with the vmid has no type |
| ProxmoxDeps.GetResourceInfo | backend/app/api/deps/proxmox.py:51-70 | `get_resource_info` answers the lookup, with a failing listing turned into 500 carrying its message |
| ProxmoxDeps.LxcSkipsOtherTypes | backend/app/api/deps/proxmox.py:36-39 | the container scan passes over an entry with the vmid of another type, where the general lookup stops at it |
| ProxmoxDeps.LxcFoundIsFound | backend/app/api/deps/proxmox.py:16-19 | when the first entry with the vmid is a container, both scans find that entry |
| PyUuid.Parse | backend/app/api/routes/vm_requests.py:141-144 | the path id is accepted exactly when, once `urn:`, `uuid:`, the surrounding braces and the hyphens are removed, 32 characters remain that `int(text, 16)` reads with a value that is not negative; an accepted id is well formed, and 32 plain hexadecimal digits give that id digit for digit |
| PyUuid.HexInt | backend/app/api/routes/vm_requests.py:141-144 | a number read as `int(text, 16)` has at most as many digits as the text, each below 16 |
| PyUuid.ParsePrefixed | backend/app/api/routes/vm_requests.py:141-144 | a `0x` prefix followed by 30 hexadecimal digits is accepted, as the id whose first two digits are zero |
| PyUuid.ParseSpaced | backend/app/api/routes/vm_requests.py:141-144 | white space before 31 hexadecimal digits is accepted, as the id whose first digit is zero |
| PyUuid.GroupedHexInt | backend/app/api/routes/vm_requests.py:141-144 | a single underscore between two groups of hexadecimal digits is skipped by `int(text, 16)` |
| PyUuid.ParseGrouped | backend/app/api/routes/vm_requests.py:141-144 | 31 hexadecimal digits split by one underscore are accepted as the id of those digits with a leading zero |
| PyUuid.ParseDoubleUnderscore | backend/app/api/routes/vm_requests.py:141-144 | two underscores in a row are refused |
| PyUuid.FormatNormal | backend/app/api/routes/vm_requests.py:141-144 | stripping the canonical spelling leaves the 32 lower-case digits, which read back as the id |
| PyUuid.UpperDigits | backend/app/api/routes/vm_requests.py:172-175 | stripping the upper-case spelling leaves 32 hexadecimal digits that read back as the id |
| PyUuid.ParseFormat | backend/app/api/routes/vm_requests.py:141-144 | the canonical spelling of an id reads back as that id |
| PyUuid.ParseBraced | backend/app/api/routes/vm_requests.py:172-175 | the braced spelling names the same id as the plain one |
| PyUuid.ParseUpperCase | backend/app/api/routes/vm_requests.py:172-175 | the upper-case spelling names the same id, so it finds the same request |
| PyUuid.FormatDigits | backend/app/api/routes/vm_requests.py:141-144 | the canonical spelling is the 32 digits with hyphens added and nothing else |
| PyUuid.FormatIsPlain | backend/app/api/routes/vm_requests.py:141-144 | the canonical spelling holds nothing the parser strips: no `u` and no brace at either end |
| PyUuid.FormatHexAt | backend/app/api/routes/vm_requests.py:141-144 | every character of the canonical spelling is a hyphen or a lower-case hexadecimal digit |
| PyUuid.Format | backend/app/api/routes/vm_requests.py:141-144 | the canonical spelling of an id is 36 characters long |
| UserModel.NewUserDefaults | backend/app/models/user.py:18-24 | a user given only an address is active and not a superuser, and is valid exactly when the address passes the e-mail check and has at most 255 characters |
| UserModel.PasswordRuleShared | backend/app/models/user.py:28-47 | registration and admin creation apply the same 8-to-128 password rule; an update either sends no password or meets that rule |
| UserModel.UpdatePasswordBounds | backend/app/models/user.py:57-61 | both passwords of a change need 8 to 128 characters, so a new password cut to 7 is refused |
| VmRequestModel.StatusValues | backend/app/models/vm_request.py:14-19 | the three statuses are exactly the texts `pending`, `approved` and `rejected`, and each reads back as itself |
| VmRequestModel.MatchGroupIff | backend/app/models/vm_request.py:98 | the group `[a-z0-9-]*[a-z0-9]` matches exactly the non-empty strings of letters, digits and hyphens that do not end in a hyphen |
| VmRequestModel.HostnamePatternIsLabel | backend/app/models/vm_request.py:98 | the hostname pattern accepts exactly the labels: lower-case letters, digits and inner hyphens |
| VmRequestModel.CreateValidMeans | backend/app/models/vm_request.py:93-113 | a create body is valid exactly when the reason has at least 10 characters, the hostname is a label of at most 63 characters and the password has 8 to 128 |
| VmRequestModel.HostnameExamples | backend/app/models/vm_request.py:98 | `web-01`, `a` and `1host` are valid hostnames; `-web`, `web-`, `Web` and the empty name are not |
| ResourceCrud.ApplyAllFields | backend/app/crud/resource.py:59-60 | applying the update dict never changes the vmid or the creation time; a field no key names keeps its value, and the last key for a field decides it |
| ResourceCrud.RemoveAt | backend/app/crud/resource.py:70-72 | deleting one row leaves the others in order, one fewer, the same multiset less that row |
| ResourceCrud.Lookup | backend/app/crud/resource.py:38-41 | a found row is in the table with that vmid; nothing found means no row has it |
| ResourceCrud.AfterDelete | backend/app/crud/resource.py:67-72 | without a matching row the table is unchanged; otherwise exactly the found row is gone |
| ResourceCrud.ResourceTable.constructor | backend/app/crud/resource.py:12-72 | the table starts empty |
| ResourceCrud.ResourceTable.ByVmid | backend/app/crud/resource.py:38-41 | `get_resource_by_vmid`: a found row is a row of the table with that vmid; `None` means no row has it |
| ResourceCrud.ResourceTable.ByUser | backend/app/crud/resource.py:44-49 | `get_resources_by_user`: only the user's rows and every one of them, kept in table order |
| ResourceCrud.ResourceTable.Create | backend/app/crud/resource.py:12-35 | `create_resource` appends one row holding exactly the given values and the creation time, and returns it |
| ResourceCrud.ResourceTable.Update | backend/app/crud/resource.py:52-64 | `update_resource` sets the keys in dict order on that one row; every other row is unchanged |
| ResourceCrud.ResourceTable.Delete | backend/app/crud/resource.py:67-72 | `delete_resource` removes the first row with the vmid and nothing else; without one the table is unchanged |
| VmRequestCrud.StoredCarriesSubmission | backend/app/crud/vm_request.py:13-43 | the stored request carries every field of the submission, its password recovered by decryption, with status pending, the fixed environment type and no review yet |
| VmRequestCrud.ReviewedFields | backend/app/crud/vm_request.py:104-123 | a review sets status, reviewer, comment and time, replaces the vmid only when one is given, and keeps every other field |
| VmRequestCrud.NewerFirstIsPreorder | backend/app/crud/vm_request.py:71 | newest-first by creation time is a total preorder, so the sorted listings are well defined |
| VmRequestCrud.Window | backend/app/crud/vm_request.py:67-75 | the page is the run of the newest-first order of the matching rows that starts at position `skip` and holds `limit` rows or all that are left, so every row on it is a matching row and the page is newest first |
| VmRequestCrud.RequestTable.constructor | backend/app/crud/vm_request.py:13-123 | the table starts empty |
| VmRequestCrud.RequestTable.ById | backend/app/crud/vm_request.py:44-55 | `get_vm_request_by_id`: a found row has that id; `None` means no row has it |
| VmRequestCrud.RequestTable.ByUser | backend/app/crud/vm_request.py:58-76 | `get_vm_requests_by_user`: the count is all the user's requests; the page is the `skip`/`limit` window of exactly those requests, newest first |
| VmRequestCrud.RequestTable.All | backend/app/crud/vm_request.py:79-101 | `get_all_vm_requests`: the count covers the status filter (all rows without one); the page is the `skip`/`limit` window of exactly the matching rows, newest first, and of the whole table without a filter |
| VmRequestCrud.RequestTable.Create | backend/app/crud/vm_request.py:13-43 | `create_vm_request` appends exactly the stored form of the submission and returns it |
| VmRequestCrud.RequestTable.UpdateStatus | backend/app/crud/vm_request.py:104-123 | `update_vm_request_status` replaces only the request with that id by its reviewed form, which is found again by its id |
| VmRequestCrud.UpdateKeepsLookup | backend/app/crud/vm_request.py:114-123 | the reviewed row keeps its id, so a lookup finds it again at the same place |
| VmRequestCrud.NewestFirst | backend/app/crud/vm_request.py:71 | the sorted listing holds exactly the matching rows, as a permutation, ordered newest first by creation time |
| VmRequestRoutes.PublicLosesOnlyPassword | backend/app/api/routes/vm_requests.py:26-54 | the public view shows nothing of the password or the privilege flag: rows that differ only there look the same |
| VmRequestRoutes.CreateCheckIff | backend/app/api/routes/vm_requests.py:64-80 | a submission passes the route's checks exactly when it is a container with a template, or a VM with a non-zero template id and a user name; disk sizes are never required |
| VmRequestRoutes.Create | backend/app/api/routes/vm_requests.py:57-91 | an invalid body gets 422 and a failed check 400, with the table unchanged; otherwise exactly one pending row is stored and returned with the submitter's e-mail and name |
| VmRequestRoutes.ListMy | backend/app/api/routes/vm_requests.py:94-108 | out-of-range `skip`/`limit` get 422 and nothing else does; otherwise the count is all the caller's requests and the page is the public view, with its submitter, of each request in the caller's newest-first window |
| VmRequestRoutes.ListAll | backend/app/api/routes/vm_requests.py:111-129 | out-of-range `skip`/`limit` get 422 and a caller who is not a superuser 403; otherwise the count covers the status filter and the page is the public view of each request in the newest-first window of the matching requests, of all requests without a filter |
| VmRequestRoutes.GetAccess | backend/app/api/routes/vm_requests.py:132-156 | a request is shown exactly when the id parses, the request exists and the caller owns it or is a superuser; a malformed id gets 400 |
| VmRequestRoutes.GetCanonicalId | backend/app/api/routes/vm_requests.py:141-156 | the owner always finds a stored request by the canonical text of its id |
| VmRequestRoutes.ReviewPrecheck | backend/app/api/routes/vm_requests.py:169-186 | a request that passes the checks exists and is still pending |
| VmRequestRoutes.ReviewPrecheckIff | backend/app/api/routes/vm_requests.py:169-186 | only a superuser may review, only an existing request, and only while it is pending; anyone else gets 403 first |
| VmRequestRoutes.RollbackCommentKeepsOriginal | backend/app/api/routes/vm_requests.py:217-223 | the rollback comment ends with the failure note, and the reviewer's own comment can be read back from in front of it |
| VmRequestRoutes.ProvisionChoices | backend/app/api/routes/vm_requests.py:255-335 | a container is created with the requested disk or 8 GB, swap 512, unprivileged, started, in the pool; a VM is cloned from its template, configured with the request's user and password, resized only when a disk size is set, then started; the resource row carries a template id only for a VM |
| VmRequestRoutes.ReviewRequest | backend/app/api/routes/vm_requests.py:159-252 | a failed check answers its code with nothing changed; an approval runs the provisioning calls up to the first failing one and records a resource only when all succeed; on success the request is reviewed with the new vmid; any failure answers 500 and, after an approval attempt, puts the request back to pending with the note unless that write fails too |
| VmRequestRoutes.RollbackIsReviewable | backend/app/api/routes/vm_requests.py:225-233 | after a failed approval the request is pending again with the same id and vmid, and its comment still holds the reviewer's |
| VmRequestRoutes.ToPublic | backend/app/api/routes/vm_requests.py:26-54 | the public view carries the user's email and name when the user is known, and the row can be rebuilt from it with the password and the unprivileged flag it leaves out |
| VmRequestRoutes.CreateCheck | backend/app/api/routes/vm_requests.py:64-80 | a refusal carries the message of the rule the submission breaks: an unknown type, a container without an OS template, or a VM without a template id or user name |
| VmRequestRoutes.Get | backend/app/api/routes/vm_requests.py:132-156 | 400 "Invalid request ID" exactly for a malformed id, 404 "Request not found" exactly for an unknown one, 403 exactly for a caller who neither owns it nor is a superuser; no other failure |
| VmRequestRoutes.ProvisionCalls | backend/app/api/routes/vm_requests.py:255-335 | provisioning starts by creating a container exactly for a container request and by cloning a template otherwise, and always waits for that task next |
| VmRequestRoutes.PublicRows | backend/app/api/routes/vm_requests.py:94-129 | one public view per listed row, in order, each with that row's submitter |
| ResourcesRoutes.LxcIpOf | backend/app/api/routes/resources.py:29-38 | a container address comes from the first interface named `eth0` or `net0` with a non-empty `inet`, is a prefix of it and holds no `/` |
| ResourcesRoutes.QemuIpIsExternal | backend/app/api/routes/resources.py:41-53 | a VM address is never a loopback address, and is the IPv4 address of an interface named `eth0` or `ens18` |
| ResourcesRoutes.QemuMissingAddressStops | backend/app/api/routes/resources.py:49-53 | an IPv4 entry without an address ends the scan with no address even when a usable one follows, while a loopback entry is skipped |
| ResourcesRoutes.LxcIp | backend/app/api/routes/resources.py:29-38 | the container branch of `_get_vm_ip_address` answers the first-usable-interface reading, and nothing when the probe raises |
| ResourcesRoutes.QemuIp | backend/app/api/routes/resources.py:41-56 | the nested scan over interfaces and their addresses answers the first usable address of the flattened list, and nothing when the agent raises or gives no result |
| ResourcesRoutes.QemuFound | backend/app/api/routes/resources.py:46-53 | the first usable address of an interface, after none in the interfaces before it, is the address the scan returns |
| ResourcesRoutes.CandidatesOrigin | backend/app/api/routes/resources.py:46-49 | every address the scan visits belongs to an interface named `eth0` or `ens18` |
| ResourcesRoutes.IpAddress | backend/app/api/routes/resources.py:26-59 | `_get_vm_ip_address` asks containers by their interfaces and everything else by the guest agent |
| ResourcesRoutes.Listing | backend/app/api/routes/resources.py:72-105 | one public entry per kept guest, in order, each the guest joined with its table row and its address |
| ResourcesRoutes.Collect | backend/app/api/routes/resources.py:72-105 | the shared loop keeps the accepted entries and projects each in order |
| ResourcesRoutes.ListResources | backend/app/api/routes/resources.py:62-111 | a failing cluster listing answers 500 with its message; otherwise every non-template guest of the named node, with its table details |
| ResourcesRoutes.ListedMeans | backend/app/api/routes/resources.py:73-74 | with a node named, every listed guest is on that node and not a template, and every such guest is listed |
| ResourcesRoutes.OwnedByVmid | backend/app/api/routes/resources.py:128 | the comprehension maps each of the user's vmids to one of the user's rows with that vmid |
| ResourcesRoutes.OwnedLastWins | backend/app/api/routes/resources.py:128 | for a repeated vmid the later row wins |
| ResourcesRoutes.ListMyResources | backend/app/api/routes/resources.py:114-172 | a user with no rows gets an empty list without the cluster being asked; otherwise the owned non-template guests in cluster order, each with its own row's details, or 500 when the listing raises |
| ResourcesRoutes.MyListingIsOwned | backend/app/api/routes/resources.py:134-164 | every guest in the user's listing is backed by one of the user's rows with its vmid, and shows that row's details |
| ResourcesRoutes.Prepared | backend/app/api/routes/resources.py:195-196 | a route goes on only with both `node` and `type` present; a missing key is a 500 naming it, and the lookup's own error passes through |
| ResourcesRoutes.PowerResource | backend/app/api/routes/resources.py:191-293 | the five power routes issue exactly one call, to the `qemu` endpoint only for type `qemu`, and answer its message, or 500 when it raises; a failed lookup issues nothing |
| ResourcesRoutes.DeletePlan | backend/app/api/routes/resources.py:318-338 | deletion stops a guest first exactly when it is running, forces that stop only for a container asked to, and always ends with the destroy call and its wait |
| ResourcesRoutes.DeleteResource | backend/app/api/routes/resources.py:296-350 | the calls are issued up to the first that raises, which answers 500 with the row kept; the table row goes only after every call returned |
| MachineRoutes.Summary | backend/app/api/routes/machine.py:41-51 | a missing name shows as `VM-<vmid>`, a missing status as `unknown`, a missing node as empty and a missing type as `qemu`; present values and the figures pass through unchanged |
| MachineRoutes.Summaries | backend/app/api/routes/machine.py:34-52 | one summary per shown entry, in the same order |
| MachineRoutes.CollectSummaries | backend/app/api/routes/machine.py:34-52 | the loop of `list_vms` builds exactly the summaries of the entries the node filter keeps, in cluster order |
| MachineRoutes.ListVms | backend/app/api/routes/machine.py:25-58 | a failing cluster listing gives the error pair with code 500; otherwise the summaries of the entries on the requested node |
| MachineRoutes.ListVmsKeepsAll | backend/app/api/routes/machine.py:36-37 | without a node, or with an empty one, every entry is listed, templates included |
| MachineRoutes.GetVmInfo | backend/app/api/routes/machine.py:61-87 | the summary of the first entry with the vmid, the 404 pair when there is none, the 500 pair when the listing fails |
| MachineRoutes.UrlsDiffer | backend/app/api/routes/machine.py:122-122 | the VNC socket path and the terminal socket path never coincide, whatever the two vmids |
| MachineRoutes.Ticket | backend/app/api/routes/machine.py:118-136 | a lookup failure passes through and calls nothing; a guest without a node fails with `'node'` before any call; otherwise exactly one proxy call is logged and its ticket is returned unless it fails |
| MachineRoutes.GetVmConsole | backend/app/api/routes/machine.py:90-136 | the VNC proxy is asked on the node of the first entry with the vmid; a missing guest or a guest without a node calls nothing; a proxy fault is 500 with its message; a success carries the VNC socket path, the ticket and the vmid asked for |
| MachineRoutes.TerminalTarget | backend/app/api/routes/machine.py:157-165 | the scan finds a container with the vmid and nothing else; it succeeds exactly when the container lookup of the dependencies does |
| MachineRoutes.GetLxcTerminal | backend/app/api/routes/machine.py:139-185 | the terminal proxy is asked on the container's node only; a missing container or one without a node calls nothing; a proxy fault is 500 with its message; a success carries the terminal socket path, the ticket and the vmid asked for |
| VmRoutes.GetVmConsole | backend/app/api/routes/vm.py:18-44 | a guest whose type is not `qemu` is refused with 400 before any call, a typeless one fails with `'type'` and a VM without a node with `'node'`; for a QEMU VM on a node exactly one VNC proxy call is logged, a fault is 500 with its message and a success carries its ticket and the VNC socket path |
| VmRoutes.ResizeAsWrittenHasNoUnit | backend/app/api/routes/vm.py:89-93 | for a 20 GB disk the direct creation asks for size `20` while provisioning the same approved request asks for `20G`, so the two call lists differ |
| VmRoutes.CreateVmMatchesProvisioning | backend/app/api/routes/vm.py:56-97 | with the size given in gigabytes, direct creation issues exactly the calls that provisioning an approved VM request issues |
| VmRoutes.CreateVmSteps | backend/app/api/routes/vm.py:59-97 | as written: the clone of the chosen template into the new vmid comes first, then the wait and the cloud-init settings; a resize is issued exactly when a disk size is set and a start exactly when asked for |
| VmRoutes.CreateVm | backend/app/api/routes/vm.py:47-128 | as written: the hypervisor log grows by the attempted prefix of next-id plus the as-written creation calls; on a fault nothing is stored and the answer is 504 for a timeout, 500 otherwise; on success one resource row with the new vmid, the caller and the template is appended |
| VmRoutes.TemplatesFailSticks | backend/app/api/routes/vm.py:137-145 | once the scan has raised on a prefix, the rest of the list does not change the outcome |
| VmRoutes.TemplatesAreMarked | backend/app/api/routes/vm.py:137-145 | the list succeeds exactly when every template entry has a name and a node, and then has one row per template entry, in order, carrying that entry's vmid, name and node |
| VmRoutes.GetVmTemplates | backend/app/api/routes/vm.py:131-150 | the loop answers the template list of the entries, the 500 error on a failing listing, and the missing key as the detail when a template lacks one |
| VmRoutes.CreateVmCallsAsWritten | backend/app/api/routes/vm.py:59-97 | as written: three set-up calls, then one resize exactly when a disk size is set, whose size is the bare number of gigabytes, then one start exactly when asked |
| VmRoutes.CreateVmCalls | backend/app/api/routes/vm.py:59-97 | the corrected calls differ from the as-written ones only in the resize, which carries the `G` unit |
| VmRoutes.Templates | backend/app/api/routes/vm.py:137-145 | the only failures are 500 with `'name'` or `'node'` (the key a template lacks), and a successful list has no more rows than entries |
| LxcRoutes.GetLxcTerminal | backend/app/api/routes/lxc.py:21-43 | the container found by the dependency gets exactly one terminal proxy call on its node; a missing container or node calls nothing; the answer carries the ticket and the terminal socket path, or 500 with the fault's message |
| LxcRoutes.OsTemplatesFailSticks | backend/app/api/routes/lxc.py:55-63 | once the scan has raised on a prefix, the rest of the listing does not change the outcome |
| LxcRoutes.OsTemplatesAreContainerTemplates | backend/app/api/routes/lxc.py:55-63 | the list succeeds exactly when every `vztmpl` item has a volume id, and then has one row per such item, in order, with its volume id, its format or `""` when missing, and its size or 0 when missing |
| LxcRoutes.GetTemplates | backend/app/api/routes/lxc.py:46-68 | the loop answers the template list of the storage listing, with format and size defaulted, and 500 on a failing listing or a template without a volume id |
| LxcRoutes.CreateLxcMatchesProvisioning | backend/app/api/routes/lxc.py:84-97 | a container created directly gets the configuration provisioning the same request gives it, except that a zero root disk size is passed on where provisioning substitutes 8 |
| LxcRoutes.CreateLxc | backend/app/api/routes/lxc.py:71-125 | the log grows by the attempted prefix of next-id, create and wait; every fault is 500 with its message and stores nothing; on success one resource row with the new vmid, the caller and no template is appended |
| LxcRoutes.OsTemplates | backend/app/api/routes/lxc.py:55-63 | the only failure is 500 with `'volid'`, and a successful list has no more rows than items |
| CreateResources.IssuesIff | frontend/src/components/Resources/CreateResources.tsx:53-78 | the form is accepted exactly when the name is a non-empty run of lower-case letters, digits and hyphens, the disk sizes are in range when set, 1 to 8 cores, 512 to 32768 MB and a password of at least 6 code units; an empty name or password gets both of its findings |
| CreateResources.DefaultsIssues | frontend/src/components/Resources/CreateResources.tsx:88-101 | the default values are refused only for the empty name and the empty password |
| CreateResources.DigitsRun | frontend/src/components/Resources/CreateResources.tsx:436-439 | the digit run `parseInt` reads is all digits, a prefix of the text, and stops at the first non-digit |
| CreateResources.DiskInput | frontend/src/components/Resources/CreateResources.tsx:436-439 | `parseInt(value) \|\| 20` never yields zero |
| CreateResources.DiskInputFallback | frontend/src/components/Resources/CreateResources.tsx:436-439 | an empty or zero entry becomes 20, even for the root disk whose minimum is 8, and any other number is taken as typed |
| CreateResources.OrNull | frontend/src/components/Resources/CreateResources.tsx:134-135 | an optional text is sent exactly when it is non-empty, and then unchanged |
| CreateResources.SubmitIff | frontend/src/components/Resources/CreateResources.tsx:119-158 | a container body is sent exactly when an OS template and a non-zero root disk are chosen, a VM body exactly when a template, a non-zero disk and a user name are; each carries the form's values, starts the guest, makes a container unprivileged, and otherwise the branch's message is thrown |
| CreateResources.AcceptedVmAlwaysResizes | frontend/src/components/Resources/CreateResources.tsx:142-158 | every accepted VM form sends a disk of at least 20, so the backend as written always issues its resize with the bare number |
| CreateResources.DialogAsWrittenDrifts | frontend/src/components/Resources/CreateResources.tsx:160-176 | as written, choosing the VM tab, closing and reopening shows the container tab while the form still takes the VM branch; after a created VM the reopened dialog shows the container tab but fetches VM templates |
| CreateResources.DialogAfter | frontend/src/components/Resources/CreateResources.tsx:160-176 | closing either way hides the dialog and resets the form and the type to the container defaults |
| CreateResources.DialogStaysConsistent | frontend/src/components/Resources/CreateResources.tsx:204-210 | with the reset on closing, the tab shown, the template list fetched and the branch submitted agree in every reachable state |
| CreateResources.NameIssueShown | frontend/src/components/Resources/CreateResources.tsx:55-60 | the host name's messages: "required" exactly for an empty name, "invalid" exactly when it is not a run of lower-case letters, digits and hyphens |
| CreateResources.SizeIssueShown | frontend/src/components/Resources/CreateResources.tsx:63-70 | a size message is shown exactly when that size is set and out of its range (root disk 8-500, disk 20-500, cores 1-8, memory 512-32768) |
| CreateResources.IssueShown | frontend/src/components/Resources/CreateResources.tsx:53-78 | each of the eight messages is shown exactly when its rule is broken |
| CreateResources.ParseIntPrefix | frontend/src/components/Resources/CreateResources.tsx:436-439 | `Number.parseInt(text, 10)` is NaN exactly when no digit follows the optional sign; otherwise it is negative only after a minus, and its magnitude is the value of the leading run of digits |
| CreateResources.Submit | frontend/src/components/Resources/CreateResources.tsx:119-158 | a submission throws only with the message of the branch the form's type selects, and sends a container body only for the container type and a VM body only for the VM type |
| CreateResources.DialogAfterAsWritten | frontend/src/components/Resources/CreateResources.tsx:160-176 | as written: closing keeps the form and the resource type, success resets the form but keeps the type, opening shows the container tab, and choosing a type sets the tab, the type and the form's type |
| CreateVmRequest.IssuesIff | frontend/src/components/Applications/CreateVMRequest.tsx:43-69 | the request form is accepted exactly when the reason has at least 10 code units, the name is a label of letters, digits and inner hyphens of any length, the sizes are in range when set, 1 to 8 cores, 512 to 32768 MB and a password of at least 8 code units |
| CreateVmRequest.SubmitBranches | frontend/src/components/Applications/CreateVMRequest.tsx:113-151 | a body is sent exactly when the chosen branch has its fields; it has the branch's type, carries only that branch's fields with the form's values, and sends an empty description or date as null |
| CreateVmRequest.SentPassesRouteChecks | frontend/src/components/Applications/CreateVMRequest.tsx:113-151 | every body the dialog sends passes the type and field checks of `POST /vm-requests/`, so a 400 from them cannot come from this dialog |
| CreateVmRequest.AsciiAcceptedIsValid | frontend/src/components/Applications/CreateVMRequest.tsx:43-69 | for ASCII text, a name of at most 63 characters and a password of at most 128, an accepted and sent form is one the backend's request schema accepts |
| CreateVmRequest.AstralReasonRefused | frontend/src/components/Applications/CreateVMRequest.tsx:45-48 | a reason of five emoji is ten code units for the form but five characters for the backend, so an accepted and sent form is refused |
| CreateVmRequest.AcceptedAndSent | frontend/src/components/Applications/CreateVMRequest.tsx:113-131 | a container form meeting every rule, with its template and disk chosen, is accepted and sent with its own reason and name |
| CreateVmRequest.LongNameRefused | frontend/src/components/Applications/CreateVMRequest.tsx:49-54 | the form sets no length cap on the name, so a 64-character label is accepted and sent but refused by the backend |
| CreateVmRequest.DialogAfter | frontend/src/components/Applications/CreateVMRequest.tsx:153-176 | closing or a finished submission hides the dialog, resets the form and sets the type back to container; choosing a tab sets the tab, the type and the form's type together |
| CreateVmRequest.DialogStaysConsistent | frontend/src/components/Applications/CreateVMRequest.tsx:170-176 | the tab shown, the template list fetched and the branch submitted agree in every state the dialog reaches |
| CreateVmRequest.NameIssueShown | frontend/src/components/Applications/CreateVMRequest.tsx:49-54 | the host name's messages: "required" exactly for an empty name, "invalid" exactly when the name does not match the label pattern |
| CreateVmRequest.SizeIssueShown | frontend/src/components/Applications/CreateVMRequest.tsx:56-61 | a size message is shown exactly when that size is set and out of its range (root disk 8-500, disk 20-500, cores 1-8, memory 512-32768) |
| CreateVmRequest.IssueShown | frontend/src/components/Applications/CreateVMRequest.tsx:43-69 | each of the ten messages is shown exactly when its rule is broken |
| CreateVmRequest.Submit | frontend/src/components/Applications/CreateVMRequest.tsx:113-151 | a submission throws only with the message of the branch the form's type selects, and a body sent names that branch's type |
| FormRules.MinIssues | frontend/src/routes/signup.tsx:53-56 | a required string with a minimum length has no finding exactly when it has at least that many code units, and both findings exactly when it is empty |
| FormRules.GuestOnly | frontend/src/routes/signup.tsx:27-33 | a guest-only page redirects exactly the signed-in visitor, and always to `/` |
| FormRules.BackendPasswordPassesForm | backend/app/models/user.py:38-38 | every password the backend accepts has at least 8 code units, so it passes the forms' length rule |
| FormRules.AsciiFormPasswordPassesBackend | backend/app/models/user.py:38-38 | an ASCII password of 8 to 128 code units that a form accepts is one the backend accepts |
| FormRules.AstralPasswordRefused | backend/app/models/user.py:38-38 | four emoji are 8 code units for a form but 4 characters for the backend, which refuses them |
| FormRules.MinIssuesShown | frontend/src/components/Applications/CreateVMRequest.tsx:45-48 | of two length messages, the first is shown exactly for an empty text and the second exactly for one shorter than the minimum |
| AuthForms.ConfirmIssues | frontend/src/routes/signup.tsx:57-64 | the confirmation has no finding exactly when it is non-empty and equal to the password |
| AuthForms.SignupIssuesIff | frontend/src/routes/signup.tsx:49-66 | sign-up is accepted exactly when the address is well formed, a name is given and a password of at least 8 code units is repeated |
| AuthForms.SignupSubmit | frontend/src/routes/signup.tsx:82-88 | nothing is sent while a sign-up is pending; otherwise the address, name and password, without the confirmation |
| AuthForms.SignupMeetsBackend | frontend/src/routes/signup.tsx:49-88 | an accepted sign-up with short ASCII fields sends a registration the backend accepts exactly when the address also passes the backend's own e-mail check |
| AuthForms.TokenOf | frontend/src/routes/reset-password.tsx:30-32 | the token is the search string when it is one, and empty otherwise |
| AuthForms.ResetRedirect | frontend/src/routes/reset-password.tsx:37-44 | a signed-in visitor goes to `/`; a guest goes to `/login` exactly when the token is empty, and otherwise sees the page |
| AuthForms.ResetIssuesIff | frontend/src/routes/reset-password.tsx:62-76 | the reset form is accepted exactly when the new password has at least 8 code units and is repeated |
| AuthForms.ResetSubmit | frontend/src/routes/reset-password.tsx:102-104 | the body carries the new password and the page's token, nothing else |
| AuthForms.RenderedResetHasToken | frontend/src/routes/reset-password.tsx:37-44 | whenever the page is shown the visitor is a guest and the body carries the non-empty token string from the address |
| AuthForms.ChangeIssuesIff | frontend/src/components/UserSettings/ChangePassword.tsx:28-46 | a change is accepted exactly when both passwords have at least 8 code units and the new one is repeated |
| AuthForms.ToUpdatePassword | frontend/src/components/UserSettings/ChangePassword.tsx:72-74 | the backend reads the current and new password from the form as sent and ignores the confirmation |
| AuthForms.ChangeMeetsBackend | frontend/src/components/UserSettings/ChangePassword.tsx:28-74 | an accepted change with ASCII passwords of at most 128 code units is one the backend accepts |
| AuthForms.LoginSubmit | frontend/src/routes/login.tsx:73-76 | nothing is sent while a log-in is pending; otherwise the form as entered |
| AuthForms.StoredPasswordLogsIn | frontend/src/routes/login.tsx:49-58 | a password the backend accepted never trips the log-in form's length rule; only the address can |
| AdminUserForms.EditDefaults | frontend/src/components/Admin/EditUser.tsx:74-80 | the edit form starts with the user's own address, name and flags, and no password |
| AdminUserForms.EditIssuesIff | frontend/src/components/Admin/EditUser.tsx:48-66 | the edit form is accepted exactly when the address is well formed and the password is unset, empty, or has 8 code units and is repeated; an empty password passes whatever the confirmation holds |
| AdminUserForms.EditDefaultsAccepted | frontend/src/components/Admin/EditUser.tsx:74-80 | an unchanged form of a user with a well-formed address is accepted |
| AdminUserForms.Fields | frontend/src/components/Admin/EditUser.tsx:96-98 | the form object has a key exactly for each set field, holding that field's value |
| AdminUserForms.EditSubmit | frontend/src/components/Admin/EditUser.tsx:96-103 | the body never has the confirmation, has the password exactly when a non-empty one was typed, and otherwise keeps every field of the form unchanged |
| AdminUserForms.EditMeetsBackend | frontend/src/components/Admin/EditUser.tsx:96-103 | an accepted edit with short ASCII fields is a valid update for the backend exactly when the address also passes the backend's e-mail check, and a password reaches it exactly when one was typed |
| AdminUserForms.AddIssuesIff | frontend/src/components/Admin/AddUser.tsx:43-62 | the add form is accepted exactly when the address is well formed and a password of at least 8 code units is repeated |
| AdminUserForms.AddDefaultsRefused | frontend/src/components/Admin/AddUser.tsx:70-77 | the defaults are refused for the missing password and confirmation, and leave the new user inactive, unlike the backend's default |
| AdminUserForms.ToUserCreate | frontend/src/components/Admin/AddUser.tsx:94-96 | the backend reads the address, password, name and flags of the form as sent, and ignores the confirmation |
| AdminUserForms.AddMeetsBackend | frontend/src/components/Admin/AddUser.tsx:43-96 | an accepted form with short ASCII fields creates a user the backend accepts exactly when the address also passes the backend's e-mail check |
| FastTemplates.TemplatesOf | frontend/src/components/Applications/FastTemplatesTab.tsx:52-52 | one template per file, in the same order, each that file's contents |
| FastTemplates.TemplateListSorted | frontend/src/components/Applications/FastTemplatesTab.tsx:45-53 | the template list is ordered by name whenever the collation is a total preorder, is a permutation of the template files' contents, and holds nothing but the contents of files that are neither the metadata nor a version list |
| FastTemplates.MetadataCategories | frontend/src/components/Applications/FastTemplatesTab.tsx:40-43 | the category list is that of the first file whose path ends in `metadata.json`, and empty when there is none |
| FastTemplates.NamesOf | frontend/src/components/Applications/FastTemplatesTab.tsx:125-131 | the map has a key exactly for each category id |
| FastTemplates.NamesLastWins | frontend/src/components/Applications/FastTemplatesTab.tsx:127-129 | a category's id maps to its name when no later category has the same id |
| FastTemplates.Gallery.SortCategories | frontend/src/components/Applications/FastTemplatesTab.tsx:119-123 | the category array is replaced by its sort on `sort_order`, in place; the map is untouched |
| FastTemplates.Gallery.BuildNames | frontend/src/components/Applications/FastTemplatesTab.tsx:125-131 | the loop sets the map to one entry per category id, the later name winning, and leaves the array as it is |
| FastTemplates.Gallery.constructor | frontend/src/components/Applications/FastTemplatesTab.tsx:119-131 | the map is built over the array after the in-place sort, since the sorting memo runs first |
| FastTemplates.SortedCategories | frontend/src/components/Applications/FastTemplatesTab.tsx:119-123 | the sorted categories are ordered by `sort_order` and are a permutation of the metadata's |
| FastTemplates.FilteredIff | frontend/src/components/Applications/FastTemplatesTab.tsx:133-146 | a template is shown exactly when it is listed, its name or description contains the search term ignoring case, and it carries the chosen category |
| FastTemplates.EmptySearchShowsDescribed | frontend/src/components/Applications/FastTemplatesTab.tsx:135-137 | with no search and all categories, exactly the templates with a name or description are shown, and one with neither is never shown |
| FastTemplates.Badges | frontend/src/components/Applications/FastTemplatesTab.tsx:419-435 | a card shows the names of at most its first two categories, `Unknown` for a missing or empty name, then `+n` for the n others |
| FastTemplates.BadgeNames | frontend/src/components/Applications/FastTemplatesTab.tsx:215-217 | one badge per id, the mapped name or `Unknown` when it is missing or empty |
| FastTemplates.Breaks | frontend/src/components/Applications/FastTemplatesTab.tsx:102-102 | a non-empty note stays non-empty and starts with its own first character or a line break |
| FastTemplates.BreaksLeaveNoEscape | frontend/src/components/Applications/FastTemplatesTab.tsx:102-102 | after the replacement no escaped `\n` is left in the note |
| FastTemplates.BreaksKeepPlainText | frontend/src/components/Applications/FastTemplatesTab.tsx:102-102 | a note without backslashes is left alone |
| FastTemplates.CodeSpanWraps | frontend/src/components/Applications/FastTemplatesTab.tsx:103-106 | a backtick-quoted text becomes a single code element holding exactly that text |
| FastTemplates.CodeSpansKeepPlainText | frontend/src/components/Applications/FastTemplatesTab.tsx:103-106 | a note without backticks is left alone |
| FastTemplates.NoteHtmlPlain | frontend/src/components/Applications/FastTemplatesTab.tsx:100-107 | a note holding neither backslashes nor backticks is shown as it is |
| FastTemplates.DisplayedDiffersFromCopied | frontend/src/components/Applications/FastTemplatesTab.tsx:272-278 | as written, the shown command has the same length as the copied one and differs from it exactly at the two option letters, which are Cyrillic |
| FastTemplates.DisplayedIsCopied | frontend/src/components/Applications/FastTemplatesTab.tsx:272-278 | corrected, the page shows exactly what the copy button copies, with the ASCII option letters `L` and `O` |
| FastTemplates.Filtered | frontend/src/components/Applications/FastTemplatesTab.tsx:133-146 | every shown template is one of the listed templates and matches the search and the category, and the shown list is a subsequence of the listed one, so list order is kept |
| FastTemplates.CopiedCommand | frontend/src/components/Applications/FastTemplatesTab.tsx:276-278 | the copied command is `bash -c "$(wget -qLO - <base>` with ASCII options and ends with the script's path and the closing `)"` |
| ItemColumns.JsRem | frontend/src/components/Items/columns.tsx:25-26 | JavaScript's `%` by a positive divisor: the remainder lies strictly between minus and plus the divisor and agrees with the mathematical remainder for a non-negative dividend |
| ItemColumns.UptimePartsBounds | frontend/src/components/Items/columns.tsx:24-26 | for a non-negative uptime the hours are below 24, the minutes below 60, and days, hours and minutes account for the uptime to the minute |
| ItemColumns.FormatUptimeForms | frontend/src/components/Items/columns.tsx:22-30 | the text shows days exactly from one day of uptime on, two units exactly from one hour on, and only the minutes below an hour |
| ItemColumns.NegativeUptimeInMinutes | frontend/src/components/Items/columns.tsx:24-29 | a negative uptime never shows days or hours, only its truncated minutes |
| ItemColumns.RowConsole | frontend/src/components/Items/columns.tsx:144-158 | the row button is enabled exactly for a running guest and reads `Terminal` for a container, `Console` otherwise |
| ItemColumns.FormatUptime | frontend/src/components/Items/columns.tsx:22-30 | `N/A` exactly without a value; a value is shown in hours last when it spans a whole day or more, and in minutes last otherwise |
| VmActions.ControlsTable | frontend/src/components/Resources/VMActions.tsx:54-215 | the console needs a running guest, start a guest not running, shutdown, reboot and reset a running guest, stop anything but a stopped guest; the menu and every action wait for all six mutations to be idle, and the stop warning shows for a running guest |
| VmActions.StartStopOverlap | frontend/src/components/Resources/VMActions.tsx:54-55 | with no mutation pending, start and stop are both offered exactly for a status other than running and stopped, and at least one of them always is |
| VmActions.PendingLocksMenu | frontend/src/components/Resources/VMActions.tsx:127-134 | while any mutation is pending no power action, no delete and no menu is offered, and the console button does not depend on the mutations |
| VmActions.ConsoleAgreesWithTable | frontend/src/components/Resources/VMActions.tsx:138-149 | the console button of the actions agrees with the guest table's row button in enabledness and caption |
| VmActions.DialogClosesOnSettle | frontend/src/components/Resources/VMActions.tsx:114-247 | the delete confirmation closes on the click that confirms it, and when the deletion succeeds and when it fails, and opens when asked for |
| VmActions.ControlsFor | frontend/src/components/Resources/VMActions.tsx:54-215 | the console caption is `Terminal` for a container and `Console` otherwise; while any mutation is pending no power action, the menu or delete is enabled; when idle the menu and delete are, and exactly one of start and shutdown is |
| LanguageProvider.FromTag | frontend/src/providers/LanguageProvider.tsx:35-38 | a stored value is taken exactly when it is the tag of a supported language, and then names that language |
| LanguageProvider.BrowserMapKeepsLanguage | frontend/src/providers/LanguageProvider.tsx:42-52 | every recognised browser tag maps to the supported language sharing its two-letter primary subtag |
| LanguageProvider.StoredTagDecides | frontend/src/providers/LanguageProvider.tsx:34-55 | a stored supported tag decides the language; an unsupported one is ignored as if nothing were stored, and with an unrecognised browser tag the provider's default applies |
| LanguageProvider.Provider.constructor | frontend/src/providers/LanguageProvider.tsx:57-62 | mounting starts with the initial language read from storage and the browser, and i18n renders that language |
| LanguageProvider.Provider.SetLanguage | frontend/src/providers/LanguageProvider.tsx:64-68 | switching stores the tag under the provider's key, changes nothing else in storage, and sets both the state and the rendered language |
| LanguageProvider.ChoicePersists | frontend/src/providers/LanguageProvider.tsx:34-68 | a language chosen by switching is the one a reload starts with, whatever the browser and the default |
| LanguageProvider.OutsideProvider | frontend/src/providers/LanguageProvider.tsx:17-23 | outside a provider the context's initial value is used, Traditional Chinese, so the missing-provider error is never raised |
| LanguageProvider.InitialLanguage | frontend/src/providers/LanguageProvider.tsx:34-55 | the initial language is the stored one, the browser tag's mapping or the default; without a stored supported tag, a recognised browser tag gives the language with its primary subtag |
| XTermDisplay.CloseMessage | frontend/src/components/Terminal/XTermDisplay.tsx:194-202 | only code 1000 gives the normal-closure text; any other code gives the close prefix followed by the reason, or by the unknown-reason placeholder when the reason is empty |
| XTermDisplay.HandshakeAgrees | frontend/src/components/Terminal/XTermDisplay.tsx:145-150 | the binary test for the handshake accepts the UTF-8 encoding of a text exactly when the text test accepts the text, and the bytes after "OK" encode the text after it |
| XTermDisplay.AfterCloseCall | frontend/src/components/Terminal/XTermDisplay.tsx:275-278 | after `close()` the socket is neither connecting nor open |
| XTermDisplay.FramesAppend | frontend/src/components/Terminal/XTermDisplay.tsx:204-221 | appending a rendered frame keeps every sent message a well-formed termproxy frame |
| XTermDisplay.TerminalSession.constructor | frontend/src/components/Terminal/XTermDisplay.tsx:30-92 | the effect runs only with a non-zero vmid and a mounted container; a failure while building the terminal shows the initialisation error and creates no socket; otherwise terminal and socket exist, the socket connecting, nothing written or sent |
| XTermDisplay.TerminalSession.OnOpen | frontend/src/components/Terminal/XTermDisplay.tsx:96-105 | the socket is open and a subscribed run installs the ping interval; nothing else changes |
| XTermDisplay.TerminalSession.OnPingTick | frontend/src/components/Terminal/XTermDisplay.tsx:100-104 | the ping frame "2" is sent exactly when the socket is open and the handshake is done; nothing else changes |
| XTermDisplay.TerminalSession.OnTextMessage | frontend/src/components/Terminal/XTermDisplay.tsx:107-144 | an unsubscribed run ignores the message; an "OK" text before readiness makes the run ready and connected, clears the error, writes what followed "OK" if anything and schedules the fit; any other text is written as it is |
| XTermDisplay.TerminalSession.OnBinaryMessage | frontend/src/components/Terminal/XTermDisplay.tsx:145-181 | the same for byte messages, the handshake being the bytes 79 and 75 |
| XTermDisplay.TerminalSession.CompleteHandshake | frontend/src/components/Terminal/XTermDisplay.tsx:113-122 | the run becomes ready and connected with no error, the rest of the message is written, and the fit is scheduled |
| XTermDisplay.TerminalSession.MarkConnected | frontend/src/components/Terminal/XTermDisplay.tsx:114-116 | the run becomes ready and connected with no error and the fit is scheduled; nothing else changes |
| XTermDisplay.TerminalSession.Write | frontend/src/components/Terminal/XTermDisplay.tsx:143-143 | one more output is written to the terminal; nothing else changes |
| XTermDisplay.TerminalSession.AfterHandshakeFrame | frontend/src/components/Terminal/XTermDisplay.tsx:125-141 | after the fit, the terminal size is sent as a resize frame, 80 by 24 standing in for a zero size, exactly when the socket is open and the fit does not raise |
| XTermDisplay.TerminalSession.OnTerminalData | frontend/src/components/Terminal/XTermDisplay.tsx:205-212 | keystrokes are sent as an input frame carrying their UTF-8 length exactly when the socket is open and the handshake is done |
| XTermDisplay.TerminalSession.OnTerminalResize | frontend/src/components/Terminal/XTermDisplay.tsx:215-221 | a new size is sent as a resize frame exactly when the socket is open and the handshake is done |
| XTermDisplay.TerminalSession.OnSocketError | frontend/src/components/Terminal/XTermDisplay.tsx:187-192 | the socket is closed and a subscribed run shows the error status with the fixed message |
| XTermDisplay.TerminalSession.OnSocketClose | frontend/src/components/Terminal/XTermDisplay.tsx:194-202 | the socket is closed and a subscribed run shows the disconnected status with the close message |
| XTermDisplay.TerminalSession.Cleanup | frontend/src/components/Terminal/XTermDisplay.tsx:266-279 | the run unsubscribes, the ping stops, the terminal is disposed and the socket closed once each if their refs are set, and both refs are cleared |
| XTermDisplay.TerminalSession.DisposeTerminal | frontend/src/components/Terminal/XTermDisplay.tsx:271-274 | the terminal is disposed once if its ref is set, and the ref is cleared |
| XTermDisplay.TerminalSession.CloseSocket | frontend/src/components/Terminal/XTermDisplay.tsx:275-278 | the socket is closed once if its ref is set, and the ref is cleared |
| XTermDisplay.TerminalSession.HandleDisconnect | frontend/src/components/Terminal/XTermDisplay.tsx:282-290 | the socket is closed and the terminal disposed through their refs, which stay set, and the owner is notified once; the subscription and the ping are left as they are |
| XTermDisplay.TerminalSession.HandleClear | frontend/src/components/Terminal/XTermDisplay.tsx:292-294 | the terminal is cleared once if its ref is set; nothing else changes |
| XTermDisplay.TerminalSession.HandleReset | frontend/src/components/Terminal/XTermDisplay.tsx:296-298 | the terminal is reset once if its ref is set; nothing else changes |
| XTermDisplay.CloseHidesOverlay | frontend/src/components/Terminal/XTermDisplay.tsx:326-326 | a close always sets a non-empty message, so the connecting overlay is hidden afterwards |
| TermProxy.OrDefault | frontend/src/components/Terminal/XTermDisplay.tsx:132-133 | a non-zero dimension is kept and zero is replaced by the fallback |
| TermProxy.ParseNumber | frontend/src/components/Terminal/XTermDisplay.tsx:207-209 | a number read back spells exactly the text it was read from |
| TermProxy.ParseNumberRender | frontend/src/components/Terminal/XTermDisplay.tsx:207-209 | every count written in decimal reads back as itself |
| TermProxy.NumberThenColon | frontend/src/components/Terminal/XTermDisplay.tsx:207-209 | a split at the first colon gives a number and a remainder that spell the text again |
| TermProxy.NumberThenColonRender | frontend/src/components/Terminal/XTermDisplay.tsx:207-209 | a decimal number, a colon and any remainder split back into that number and that remainder |
| TermProxy.ParseInput | frontend/src/components/Terminal/XTermDisplay.tsx:207-210 | an input body is accepted only as its payload's UTF-8 length, a colon and the payload |
| TermProxy.ParseResize | frontend/src/components/Terminal/XTermDisplay.tsx:217-219 | a resize body is accepted only as columns, a colon, rows and a closing colon |
| TermProxy.ParseRender | frontend/src/components/Terminal/XTermDisplay.tsx:204-221 | every input, resize and ping frame the terminal sends parses back to the same frame |
| TermProxy.RenderParse | frontend/src/components/Terminal/XTermDisplay.tsx:204-221 | whatever parses is exactly the rendering of the frame it parses to, so the format has one spelling per frame |
| TermProxy.RenderParseInput | frontend/src/components/Terminal/XTermDisplay.tsx:207-210 | a well-formed input frame is the rendering of the frame it parses to |
| TermProxy.RenderParseResize | frontend/src/components/Terminal/XTermDisplay.tsx:217-219 | a well-formed resize frame is the rendering of the frame it parses to |
| TermProxy.RenderInjective | frontend/src/components/Terminal/XTermDisplay.tsx:204-221 | two different frames are never sent as the same text |
| TermProxy.InputFrameCount | frontend/src/components/Terminal/XTermDisplay.tsx:207-210 | an input frame parses back to its payload, whose UTF-8 length lies between its character count and four times it, and equals it for ASCII |
| NoVNCDisplay.ResolveOptions | frontend/src/components/VNC/NoVNCDisplay.tsx:46-53 | without controls the renderer is interactive, scales the viewport, resizes the session, shows no dot cursor, neither clips nor drags, and uses quality and compression 6; each of the eight settings given, `false` and `0` included, overrides its default |
| NoVNCDisplay.ReasonOr | frontend/src/components/VNC/NoVNCDisplay.tsx:121-130 | a non-empty reason is kept; an absent or empty one is replaced by the fallback |
| NoVNCDisplay.DisconnectMessageCases | frontend/src/components/VNC/NoVNCDisplay.tsx:114-125 | only a clean disconnect reports the normal-closure text; an unclean one carries the dropped-connection prefix and a non-empty reason |
| NoVNCDisplay.VncSession.constructor | frontend/src/components/VNC/NoVNCDisplay.tsx:55-68 | the effect runs only with a non-zero vmid and a mounted canvas, and then waits for the renderer module; the renderer options are resolved from the controls; no socket and no renderer exist yet |
| NoVNCDisplay.VncSession.ImportResolved | frontend/src/components/VNC/NoVNCDisplay.tsx:66-76 | a completed import creates the socket and stores it in the ref, even after the cleanup; a failed one shows the initialisation error only while subscribed |
| NoVNCDisplay.VncSession.OnSocketOpen | frontend/src/components/VNC/NoVNCDisplay.tsx:78-80 | the socket is open; nothing else changes |
| NoVNCDisplay.VncSession.OnMessage | frontend/src/components/VNC/NoVNCDisplay.tsx:82-147 | a ticket message marks the ticket received and, with the canvas mounted, creates a renderer on the socket whose password is the ticket and points the ref at it; any other message, JSON or not, changes nothing |
| NoVNCDisplay.VncSession.OnRendererConnect | frontend/src/components/VNC/NoVNCDisplay.tsx:107-112 | a subscribed run shows the connected status and clears the error |
| NoVNCDisplay.VncSession.OnRendererDisconnect | frontend/src/components/VNC/NoVNCDisplay.tsx:114-125 | a subscribed run shows the disconnected status with the disconnect message |
| NoVNCDisplay.VncSession.OnSecurityFailure | frontend/src/components/VNC/NoVNCDisplay.tsx:127-132 | a subscribed run shows the error status with the security-failure prefix and the reason |
| NoVNCDisplay.VncSession.OnCredentialsRequired | frontend/src/components/VNC/NoVNCDisplay.tsx:134-139 | a subscribed run shows the error status with the failed-ticket message |
| NoVNCDisplay.VncSession.OnSocketError | frontend/src/components/VNC/NoVNCDisplay.tsx:149-155 | the socket is closed; before a ticket the error shows whether or not the run is subscribed |
| NoVNCDisplay.VncSession.OnSocketClose | frontend/src/components/VNC/NoVNCDisplay.tsx:157-163 | the socket is closed; before a ticket a subscribed run shows the closed-socket error |
| NoVNCDisplay.VncSession.Cleanup | frontend/src/components/VNC/NoVNCDisplay.tsx:174-185 | the run unsubscribes, the renderer in the ref is disconnected and the socket in the ref closed once each, and both refs are cleared |
| NoVNCDisplay.VncSession.DisposeRenderer | frontend/src/components/VNC/NoVNCDisplay.tsx:177-180 | the renderer in the ref, if any, is disconnected once and the ref is cleared |
| NoVNCDisplay.VncSession.CloseSocket | frontend/src/components/VNC/NoVNCDisplay.tsx:181-184 | the socket in the ref, if any, is closed once and the ref is cleared |
| NoVNCDisplay.VncSession.HandleDisconnect | frontend/src/components/VNC/NoVNCDisplay.tsx:198-203 | the renderer in the ref, if any, is disconnected and the owner is notified once; the socket ref is left alone |
| NoVNCDisplay.VncSession.SendCtrlAltDel | frontend/src/components/VNC/NoVNCDisplay.tsx:205-207 | Ctrl-Alt-Del goes to the renderer in the ref, and nothing happens without one |
| NoVNCDisplay.VncSession.HandleClipboard | frontend/src/components/VNC/NoVNCDisplay.tsx:222-233 | with a renderer in the ref, the clipboard text is pasted into it when it could be read; otherwise nothing happens. The read and the paste are one step, so the second look at the ref after the await is not modelled |
| TerminalConsoleDialog.SessionStartsIff | frontend/src/components/Terminal/TerminalConsoleDialog.tsx:41-46 | a terminal session starts exactly when the dialog is open for a non-zero vmid, a missing vmid reaching the hook as 0 |
| TerminalConsoleDialog.ControlsFollowStatus | frontend/src/components/Terminal/TerminalConsoleDialog.tsx:48-49 | clear, reset and fullscreen are enabled exactly when the badge reads connected, never while the loading overlay shows, and the overlay shows exactly when the badge reads connecting |
| TerminalConsoleDialog.ConsoleDialog.constructor | frontend/src/components/Terminal/TerminalConsoleDialog.tsx:25-31 | the dialog hosts the given session and has asked its owner for nothing yet |
| TerminalConsoleDialog.ConsoleDialog.HandleClose | frontend/src/components/Terminal/TerminalConsoleDialog.tsx:64-68 | closing disconnects the session through its refs, which notifies the owner, asks the owner to close twice in all, and then stops on the undeclared `setTerminalTicket` |
| VNCConsoleDialog.FetchError | frontend/src/components/VNC/VNCConsoleDialog.tsx:46-69 | a settled console fetch leaves a non-empty error exactly when it delivers no ticket; a non-2xx status is reported as `HTTP` and the status, a failed request with its own message |
| VNCConsoleDialog.FetchTicket | frontend/src/components/VNC/VNCConsoleDialog.tsx:46-69 | a ticket is delivered exactly by a 2xx response whose body parses and holds a non-empty ticket, and it is that ticket |
| VNCConsoleDialog.VncDialog.ScreenCredentials | frontend/src/components/VNC/VNCConsoleDialog.tsx:275-288 | the screen's password is a ticket a fetch delivered, never empty, with an empty username and target |
| VNCConsoleDialog.VncDialog.Effect | frontend/src/components/VNC/VNCConsoleDialog.tsx:38-74 | opening for a non-zero vmid issues one console fetch for that vmid and starts loading; in every case the ticket and the error are cleared |
| VNCConsoleDialog.VncDialog.constructor | frontend/src/components/VNC/VNCConsoleDialog.tsx:30-74 | mounting starts unconnected with no ticket and no error, and fetches the console exactly when mounted open for a non-zero vmid |
| VNCConsoleDialog.VncDialog.SetProps | frontend/src/components/VNC/VNCConsoleDialog.tsx:38-74 | new props clear the ticket and the error, and fetch the console of the new vmid exactly when the dialog is open for a non-zero one |
| VNCConsoleDialog.VncDialog.FetchSettled | frontend/src/components/VNC/VNCConsoleDialog.tsx:51-69 | a settled fetch ends loading and stores its ticket or its error, whichever it has, even when it comes late |
| VNCConsoleDialog.VncDialog.ScreenConnected | frontend/src/components/VNC/VNCConsoleDialog.tsx:85-88 | the screen's connect event marks the dialog connected |
| VNCConsoleDialog.VncDialog.ScreenDisconnected | frontend/src/components/VNC/VNCConsoleDialog.tsx:90-93 | the screen's disconnect event marks the dialog not connected |
| VNCConsoleDialog.VncDialog.HandleClose | frontend/src/components/VNC/VNCConsoleDialog.tsx:95-102 | closing disconnects a mounted screen once, asks the owner to close, and drops the connection flag and the ticket, so the screen unmounts |
| VNCConsoleDialog.VncDialog.SendCtrlAltDel | frontend/src/components/VNC/VNCConsoleDialog.tsx:104-106 | Ctrl-Alt-Del reaches the screen exactly when one is mounted |
| VNCConsoleDialog.VncDialog.HandleClipboard | frontend/src/components/VNC/VNCConsoleDialog.tsx:108-115 | the clipboard text is pasted into a mounted screen when it could be read; otherwise nothing happens |
| Prelude.SortBy | backend/app/crud/vm_request.py:71-71 | the sorted list is a permutation of the input of the same length |
| Prelude.SortBySorted | backend/app/crud/vm_request.py:71-71 | the sort orders its result whenever the comparison is a total preorder |
| Prelude.Filter | backend/app/api/routes/machine.py:36-37 | the kept elements all satisfy the condition and come from the input, and there are no more of them than inputs |
| Prelude.FilterKeepsAll | backend/app/api/routes/machine.py:36-37 | every input element satisfying the condition is kept |
| Prelude.FirstIndex | backend/app/api/deps/proxmox.py:15-19 | the index found is that of the first matching element, and none is found exactly when nothing matches |
| Prelude.Page | backend/app/crud/vm_request.py:72-73 | the `OFFSET skip LIMIT limit` window holds at most `limit` rows, exactly the number left after `skip`, in order from position `skip` |
| Text.NatToString | frontend/src/components/Terminal/XTermDisplay.tsx:209-209 | the decimal rendering of a count is a non-empty run of digits without a leading zero |
| Text.ParseNatToString | frontend/src/components/Terminal/XTermDisplay.tsx:209-209 | reading a rendered count gives the count back |
| Text.NatToStringInjective | frontend/src/components/Terminal/XTermDisplay.tsx:209-209 | different counts are rendered differently |
| Text.IntToString | backend/app/api/routes/vm.py:23-23 | the rendering of an integer is non-empty and starts with a minus sign exactly for a negative one |
| Text.ToLower | frontend/src/components/Applications/FastTemplatesTab.tsx:136-137 | lower-casing keeps the length and lowers each character on its own |
| Text.BeforeFirst | backend/app/api/routes/resources.py:38-38 | the text before the first separator holds no separator, is a prefix of the text, is followed by the separator when shorter, and is the whole text when there is none |
| Utf8.EncodeLength | frontend/src/components/Terminal/XTermDisplay.tsx:208-208 | the encoding of a text has exactly its UTF-8 length in bytes |
| Utf8.DecodeEncode | frontend/src/components/Terminal/XTermDisplay.tsx:208-208 | decoding the UTF-8 encoding of any text gives the text back |
| Utf8.Utf8LenAppend | frontend/src/components/Terminal/XTermDisplay.tsx:208-208 | the UTF-8 length of two texts joined is the sum of their lengths |
| Utf8.Utf8LenBounds | frontend/src/components/Terminal/XTermDisplay.tsx:208-208 | a text's UTF-8 length is at least its character count and at most four times it |
| Utf8.Utf8LenAscii | frontend/src/components/Terminal/XTermDisplay.tsx:208-208 | for ASCII text the UTF-8 length is the character count |
| Utf8.Utf16LenBounds | frontend/src/routes/signup.tsx:53-56 | a text's JavaScript length is at least its character count, at most twice it, and never above its UTF-8 length |
| Utf8.Utf16LenAscii | frontend/src/routes/signup.tsx:53-56 | for ASCII text the JavaScript length is the character count |
| Utf8.Utf16LenAstral | frontend/src/routes/signup.tsx:53-56 | a text of characters outside the Basic Multilingual Plane has a JavaScript length of twice its character count |

## Left out

- I/O is modelled as inputs. The database session, the Proxmox HTTP API, the browser's `fetch`, `localStorage`, timers and WebSockets are recorded calls or parameters, not executed effects.
- Concurrency is not modelled. This covers the asyncio VNC relay in backend/app/api/websocket/vnc.py, row locking with `with_for_update`, and the interleaving of React renders. The relay only forwards frames, and the VNC session is modelled against its own message contract.
- The RFB handshake (RFC 6143) and the xterm, FitAddon and noVNC libraries are abstracted. Only the events the hooks observe are modelled: connect, disconnect, security failure and credentials required.
- Rendering layout, focus, fit-to-size, full-screen mode, resize observers and animation frames are left out. A terminal's geometry is an input `(cols, rows)`.
- The terminal's listener cleanup is not modelled. The inner cleanup returned by the asynchronous set-up is discarded by the hook, so the model never claims that listeners are removed.
- Fernet encryption is a pair of function parameters assumed to be inverse. Password hashing and JWT are not modelled. A decryption failure is not modelled.
- `basic_blocking_task_status` (waiting for a Proxmox task) is one `WaitTask` call. Task ids and their polling are not modelled.
- Floating-point display is left out. This covers `formatBytes`, `formatCpu`, the memory labels and `toLocaleDateString`.
- `localeCompare` is an abstract order `le`. The sortedness lemmas hold for any total preorder.
- Unicode lower-casing is ASCII lower-casing (`Text.ToLower`).
- E-mail syntax is two parameters: zod's `z.email` check in the forms is `isEmail`, pydantic's `EmailStr` check in the backend schemas is `emailOk`. Neither is defined here, and nothing relates one to the other.
- The backend's date parsing is a parameter `parseDay`.
- `parseInt`'s leading and trailing whitespace handling is not modelled. The disk inputs read digit text only.
- The zod messages are the issue kinds, not their translated texts. Translation keys are not modelled, and neither is the order in which a form library shows the messages.
- ChangePassword's `mode: "onSubmit"` is not modelled. It only delays when the findings are shown.
- LanguageProvider.InitialLanguage: the browser map is looked up by its own keys only. A browser language such as `constructor` names a member that every JavaScript object inherits, and JavaScript would return that member; the model treats such a language as unmapped.
- The colours and icons of a template note box are not modelled. Only its text markup is.
- The react-query cache, toasts and console logging are not modelled.
- The frontend's WebSocket URL built from `window.location` and port 8090 is an input.
- Hypervisor.Client: a console or terminal proxy reply without a `ticket` key is not modelled. The routes read `console_data["ticket"]` unguarded (backend/app/api/routes/vm.py:28, backend/app/api/routes/lxc.py:27, backend/app/api/routes/machine.py:120 and 169), so such a reply would be a 500 with `'ticket'`; the model's `ticketOf` always answers one.
- NoVNCDisplay.VncSession.HandleClipboard: the clipboard read and the paste are one step. The source looks at `rfbRef.current` before `readText()` and again inside `.then` (frontend/src/components/VNC/NoVNCDisplay.tsx:223-227), so a cleanup while the read is pending stops the paste; the model pastes into the renderer it saw first.
- Cluster entries without a `vmid` key are not modelled. Every entry of the cluster list carries one, as the listing routes read it unguarded.
- The response-model validation FastAPI applies to what a route returns is not modelled.
- `create_lxc` ignores the request's storage field; the model does the same, and the root disk always goes on the configured data storage.
- `list_nodes` in machine.py and resources.py, and `get_resource_config` in resources.py, are not modelled. They relay a hypervisor reply unchanged.
- `UserUpdateMe`, `User` and `UserPublic` of backend/app/models/user.py are not modelled. No modelled route reads them.
- The schemas of backend/app/models/machine.py are not modelled; the models use their own datatypes. The machine router is not mounted in the application, and the URL the VNC dialog fetches is taken as given.
- TerminalConsoleDialog.ConsoleDialog.HandleClose: the last step calls `setTerminalTicket`, which the file never declares. It is modelled as the handler stopping with a `ReferenceError` after its first two steps. Its author's intent is unclear, so it is not listed as a finding.
- PyUuid.Parse: `int(text, 16)` also reads the decimal digits of other scripts (Arabic-Indic, full-width and so on); the model reads only the ASCII digits and letters, so such an id is refused here where Python would accept it.
- ResourceCrud.ResourceTable.ByUser: the query has no `ORDER BY`, so the database may return the rows in any order. The model fixes one, table order, and the listing routes built on it inherit that choice.
- VmRequestCrud.NewestFirst, VmRequestCrud.Window: the contracts state the newest-first order and the permutation only. Rows created at the same instant come out in table order in the model, but the contract does not promise it, because the database's `ORDER BY created_at DESC` leaves the order of ties unspecified.
- Each ScenarioSession, ScenarioConnect, ScenarioCleanupBeforeImport and ScenarioOpen method is one fixed trace of callbacks; they illustrate the classes' contracts and prove nothing beyond them.

## Findings

| source | as written | input that shows it | evidently intended | confidence | as-written member | corrected member |
|---|---|---|---|---|---|---|
| backend/app/api/routes/vm.py:89-93 | the disk resize passes the bare number of gigabytes | a VM with `disk_size` 20 is resized to `20`, while provisioning the same approved request asks for `20G` | the size in gigabytes, as `_provision_resource` gives it | medium, not executed | VmRoutes.ResizeAsWrittenHasNoUnit | VmRoutes.CreateVmMatchesProvisioning |
| frontend/src/components/Applications/FastTemplatesTab.tsx:273 | the shown install command spells the wget options with the Cyrillic letters EL and O | any script: characters 18 and 19 of the shown command are U+041B and U+041E, where the copied one has `L` and `O` | the ASCII `-qLO` of the copied command at line 277 | high, not executed | FastTemplates.DisplayedDiffersFromCopied | FastTemplates.DisplayedIsCopied |
| frontend/src/components/Resources/CreateResources.tsx:160-176 | closing the dialog keeps the form and the resource type, and success resets the form but not the type | choose VM, close and reopen: the container tab shows while a submission takes the VM branch | the reset on closing of the request dialog | medium, not executed | CreateResources.DialogAsWrittenDrifts | CreateResources.DialogStaysConsistent |
