# WKMS school platform — a Dafny model of its rules

The WKMS school platform is the website of a rural pre-school. It has a FastAPI backend and a
Next.js frontend. Visitors read the school's story, watch its videos, write to it, and donate
to its campaigns. They pay by card through Stripe, in US dollars, or through the Ethiopian
gateway Chapa, in birr. Administrators sign in with Google. They edit the site's texts, manage
the gallery, read messages, and follow the donations.

This project models the parts of that code that hold rules, and proves properties of the model.

- **The donation ledger.**
  - A Chapa payment is recorded as PENDING.
  - Verification against the gateway moves it to SUCCESS and credits its campaign's birr total
    exactly once.
  - A Stripe payment is recorded once per PaymentIntent, and its campaign's dollar total is
    recomputed from the ledger.
  - Each endpoint's error paths are modelled as written. That includes the `HTTPException(400)`s
    that a broad `except` turns into 500s.
  - The listing, dashboard and admin totals are folds over the same table.
- **The site-content store.** This is a key/value table of texts:
  - its CRUD;
  - the bulk update that touches only existing keys;
  - seeding of missing defaults;
  - the two seed scripts.
- **Media, contact messages, campaigns and users.** Their listings, creation, deletion and
  one-field updates, with slug generation for campaigns and the whitelist decision of the
  Google sign-in.
- **String rules.** Slugs, the comma-list settings validators, the Chapa payload and URLs, the
  upload file name, the frontend's URL builders, the contact form's e-mail pattern and the admin
  sidebar's path matching.
- **Frontend state.** Each page whose state changes is modelled as a class. Its fields are the
  page's React state, and its methods are the handlers that update them:
  - the donation dialog's phases;
  - the donate page's return-from-Chapa listener;
  - the home page's video carousel;
  - the CMS editor's grouping and form;
  - the inbox search;
  - the admin donation table;
  - the contact form's status;
  - the gallery's delete.

The model is built as follows:

- Each backend endpoint receives the database session as a `Tables.Db` object. It holds one
  `seq` per table, in insertion order. Its `Valid()` predicate states the unique constraints
  of the schema: transaction ids, slugs, content keys, e-mails and primary keys.
- State-changing endpoints are methods that modify those tables. Each one is proved against a
  specification function of the old tables, and lemmas state what the source promises about
  those functions.
- Inputs stand in for everything the model does not compute:
  - replies from Stripe, Chapa and Google;
  - generated uuids and suffixes;
  - the HMAC digest;
  - the browser's answers (confirm dialogs, local storage).
- Exceptions are the `Outcome` datatype. FastAPI answers an unhandled exception with status 500.
- Money is kept in integer minor units: cents and santim.
- A row's `created_at` is its position in its table, since the server's timestamps grow with
  insertion. "Newest first" is therefore the reverse of the table.

## Model

| member | source | states |
|---|---|---|
| ChapaEndpoint.TxRef | backend/app/api/v1/endpoints/chapa.py:34 | the transaction reference is "tx-wkms-" followed by the uuid, which can be read back from it |
| ChapaEndpoint.ReturnUrl | backend/app/api/v1/endpoints/chapa.py:62-68 | the return URL is the frontend's /donate page followed by a query |
| ChapaEndpoint.ReturnParams | backend/app/api/v1/endpoints/chapa.py:63-67 | the query carries `redirect_status=succeeded`, `tx_ref` with the reference and `campaign`, in that order; the campaign value is non-empty exactly when a title is given, and is then the title |
| ChapaEndpoint.ReturnUrlCarriesParams | backend/app/api/v1/endpoints/chapa.py:63-68 | for every reference and title, non-ASCII ones included, decoding the return URL's query gives exactly `redirect_status=succeeded`, the reference, and the campaign title or "" without one |
| ChapaEndpoint.PendingDonation | backend/app/api/v1/endpoints/chapa.py:38-54 | the new record is PENDING, in ETB, through CHAPA, with the reference and amount; it is linked to a campaign exactly when a title is given and some campaign has exactly that title |
| ChapaEndpoint.InitializeChapaPayment | backend/app/api/v1/endpoints/chapa.py:24-105 | a reference already in the table fails with 500 and changes nothing; otherwise exactly one record is appended, left FAILED when the gateway answers anything but "success"; only a success with a checkout URL is returned; every failure, the handler's own 400 included, reaches the caller as 500; the dashboard is unchanged |
| ChapaEndpoint.HandleInitReply | backend/app/api/v1/endpoints/chapa.py:93-105 | a refusal marks the new record FAILED; the result is the checkout URL and reference exactly when the answer is "success" with a URL, and 500 otherwise |
| ChapaEndpoint.RecordUnconfirmed | backend/app/api/v1/endpoints/chapa.py:45-56 | inserting a fresh PENDING or FAILED ETB record keeps the references unique, keeps only Chapa records unconfirmed, and leaves every dashboard statistic as it was |
| ChapaEndpoint.ToConfirm | backend/app/api/v1/endpoints/chapa.py:162-163 | the record a confirmation acts on is the first with the reference, and only if it is not SUCCESS yet; with unique references, none means every record with it is already SUCCESS |
| ChapaEndpoint.Verify | backend/app/api/v1/endpoints/chapa.py:160-173 | only the record to confirm changes, to SUCCESS; campaigns keep every field except `current_raised_etb` |
| ChapaEndpoint.VerifyIdempotent | backend/app/api/v1/endpoints/chapa.py:160-171 | no double crediting: confirming the same reference again changes nothing |
| ChapaEndpoint.VerifyUnknownOrConfirmed | backend/app/api/v1/endpoints/chapa.py:162-163 | an unknown reference, or one whose record is already SUCCESS, leaves both tables unchanged |
| ChapaEndpoint.VerifyCreditsAmount | backend/app/api/v1/endpoints/chapa.py:166-171 | the campaigns' ETB totals together grow by exactly the donation's amount when it is linked to an existing campaign, and by nothing otherwise |
| ChapaEndpoint.VerifyKeepsEtbConsistent | backend/app/api/v1/endpoints/chapa.py:163-171 | when every campaign's ETB total equals the sum of its confirmed ETB donations, a confirmation keeps it so |
| ChapaEndpoint.VerifyOnDashboard | backend/app/api/v1/endpoints/chapa.py:160-173 | a confirmation adds one to the dashboard count and the amount to the ETB total and leaves the USD total alone; confirming nothing changes no statistic |
| ChapaEndpoint.VerifyKeepsInvariants | backend/app/api/v1/endpoints/chapa.py:160-173 | confirmation keeps references unique, campaigns unique, and only Chapa records unconfirmed |
| ChapaEndpoint.ProcessVerification | backend/app/api/v1/endpoints/chapa.py:154-181 | a raising gateway call is re-raised before anything changes; otherwise the tables become the confirmation's result when the reply is "success", stay unchanged for any other reply, and the reply's status is returned |
| ChapaEndpoint.VerifyChapaPayment | backend/app/api/v1/endpoints/chapa.py:107-115 | the verify endpoint changes the tables as `process_verification` does, fails with 500 exactly when the gateway call raised, and otherwise returns the gateway's status |
| ChapaEndpoint.ChapaWebhook | backend/app/api/v1/endpoints/chapa.py:117-152 | with a secret set, a wrong signature gives 403 and changes nothing; with an empty secret there is no check; an unparsable body gives 400; verification runs only for status "success" with a reference, and a raise inside it gives 400 |
| DonationEndpoint.ReadDonations | backend/app/api/v1/endpoints/donation.py:19-39 | at most `limit` records, all from the table; "general" selects donations without a campaign, another id exact matches, no id everything |
| DonationEndpoint.ReadDonationsComplete | backend/app/api/v1/endpoints/donation.py:32-38 | a page big enough for everything, read back to front, is exactly the selected donations in insertion order: the listing is newest first and misses nothing |
| DonationEndpoint.StripeDonation | backend/app/api/v1/endpoints/donation.py:100-122 | the new record is SUCCESS through STRIPE, with the intent's id and amount and upper-cased currency; the donor is "Guest Donor", the email comes from the request or else the receipt; the campaign is found by exact title |
| DonationEndpoint.RecomputedCampaign | backend/app/api/v1/endpoints/donation.py:105-111 | the campaign whose USD total is recomputed is the one linked by title, and only when its id is truthy |
| DonationEndpoint.StripeVerify | backend/app/api/v1/endpoints/donation.py:78-150 | a Stripe error gives 400 and a non-succeeded intent 500 "Internal Verification Error", both with the tables unchanged; a success returns a record with the intent's id that is in the table |
| DonationEndpoint.VerifyStripeDonation | backend/app/api/v1/endpoints/donation.py:78-150 | the endpoint's result and new tables are those of `StripeVerify`; the unique constraints hold, and so does the Chapa handlers' invariant that every unconfirmed donation is a Chapa ETB one |
| DonationEndpoint.StripeVerifyKeepsUnconfirmedChapa | backend/app/api/v1/endpoints/donation.py:113-122 | a Stripe verification adds only a SUCCESS record, so every unconfirmed donation is still a Chapa ETB one |
| DonationEndpoint.StripeVerifyIdempotent | backend/app/api/v1/endpoints/donation.py:93-96 | verifying the same intent again, with any request, returns the first record and changes nothing |
| DonationEndpoint.StripeVerifyDeduplicates | backend/app/api/v1/endpoints/donation.py:94-96 | an intent id already recorded returns that record and inserts nothing |
| DonationEndpoint.StripeVerifyRecomputes | backend/app/api/v1/endpoints/donation.py:128-142 | a new payment appends one record; the linked campaign's USD total is set to the sum of its SUCCESS "USD" donations rather than incremented; every other campaign is unchanged |
| DonationEndpoint.StripeVerifyKeepsUsdConsistent | backend/app/api/v1/endpoints/donation.py:128-142 | when every campaign's USD total equals the sum of its confirmed USD donations, a Stripe payment keeps it so |
| DonationEndpoint.VerifyKeepsUsdConsistent | backend/app/api/v1/endpoints/chapa.py:163-171 | a Chapa confirmation never breaks the USD totals, because the record it confirms is in ETB |
| DonationEndpoint.StripeVerifyKeepsEtbConsistent | backend/app/api/v1/endpoints/donation.py:128-142 | a Stripe payment in any currency other than ETB keeps every campaign's ETB total consistent |
| Dashboard.GetDashboardStats | backend/app/api/v1/endpoints/dashboard.py:13-51 | `active_campaigns` counts every campaign; the count is that of the SUCCESS donations, at most the table's size; the recent list is the last five SUCCESS donations, newest first (fewer when there are fewer) |
| Dashboard.UnsuccessfulIgnored | backend/app/api/v1/endpoints/dashboard.py:23-43 | PENDING and FAILED donations never count: recording one leaves every statistic as it was |
| Dashboard.SuccessRecorded | backend/app/api/v1/endpoints/dashboard.py:23-43 | a new SUCCESS donation adds one to the count and its amount to the total of its exact currency ("USD" or "ETB"); the recent list becomes it followed by the previous list, cut to five |
| Dashboard.CurrencyTotalsDisjoint | backend/app/api/v1/endpoints/dashboard.py:23-32 | the two totals together are the sum over SUCCESS donations spelled exactly "USD" or "ETB": none counts twice, and any other spelling counts in neither |
| DonationModel.GatewayName | backend/app/models/donation.py:8-10 | a gateway's value is "STRIPE" or "CHAPA" |
| DonationModel.StatusName | backend/app/models/donation.py:12-15 | a status's value is "PENDING", "SUCCESS" or "FAILED" |
| DonationModel.ParseGateway | backend/app/models/donation.py:8-10 | a string names a gateway exactly when it is "STRIPE" or "CHAPA", and then the member's value is the string |
| DonationModel.ParseStatus | backend/app/models/donation.py:12-15 | a string names a status exactly when it is one of the three values, and then the member's value is the string |
| DonationModel.NamesRoundTrip | backend/app/models/donation.py:8-15 | the enumerations hold exactly the listed members: every member's value parses back to it |
| DonationModel.NewDonation | backend/app/models/donation.py:35 | a donation built without a status is PENDING, with the given fields |
| DonationModel.CampaignTitle | backend/app/models/donation.py:39-41 | the linked campaign's title, or "General Donation" when there is no campaign or it is not in the table |
| DonationModel.LinkedCampaign | backend/app/api/v1/endpoints/chapa.py:38-42 | a campaign id is found exactly when a title is given and some campaign has exactly that title, and it is that campaign's id |
| CampaignService.KeepSlugChars | backend/app/services/campaign_service.py:12 | only lower-case letters, digits, whitespace and '-' remain, and a string made only of those is unchanged |
| CampaignService.CollapseSpacesShape | backend/app/services/campaign_service.py:13 | after the whitespace rewrite no whitespace remains; a string without whitespace is unchanged; from the characters the first rewrite leaves, only slug characters come out |
| CampaignService.StripHyphens | backend/app/services/campaign_service.py:13 | `strip('-')`: the result neither begins nor ends with '-', is the input with its leading hyphens dropped and cut after its last non-hyphen, and is the input itself when that neither begins nor ends with '-' |
| CampaignService.CreateSlug | backend/app/services/campaign_service.py:9-14 | a slug holds only a-z, 0-9 and '-', and never begins or ends with '-' |
| CampaignService.CollapseRun | backend/app/services/campaign_service.py:13 | each whitespace run, whatever its length, becomes exactly one '-' |
| CampaignService.HyphensKept | backend/app/services/campaign_service.py:9-14 | hyphens already in a title are kept, not collapsed: a lower-case, hyphenated title that neither begins nor ends with '-' is its own slug |
| CampaignService.SlugIsFixed | backend/app/services/campaign_service.py:9-14 | a string of slug characters that neither begins nor ends with '-' is its own slug |
| CampaignService.CreateSlugIdempotent | backend/app/services/campaign_service.py:9-14 | `create_slug` applied to its own result returns it unchanged |
| CampaignService.GetMulti | backend/app/services/campaign_service.py:16-17 | at most `limit` campaigns, all active and from the table |
| CampaignService.GetBySlug | backend/app/services/campaign_service.py:43-44 | a campaign with exactly that slug, or None exactly when no campaign has it |
| CampaignService.ChooseSlug | backend/app/services/campaign_service.py:20-28 | without a collision the slug is the base slug; with one it is base + "-" + the four-character suffix, checked only once |
| CampaignService.NewCampaign | backend/app/services/campaign_service.py:30-37 | the inserted row is active, starts with both raised totals at 0, and has the given id, title and slug |
| CampaignService.Create | backend/app/services/campaign_service.py:19-41 | a row with the chosen slug is appended; a second collision or a taken id fails the unique constraint and changes nothing |
| CampaignService.CreatedIsFound | backend/app/services/campaign_service.py:19-44 | after a successful create, slugs and ids stay unique, `get_by_slug` finds the new campaign, and it is listed last among the active ones |
| CampaignService.CreateKeepsLedgerConsistent | backend/app/services/campaign_service.py:30-41 | a new campaign, starting at 0 and named by no donation, keeps every campaign's totals equal to its confirmed donations |
| Models.KeyedBy | frontend/app/page.tsx:46-49 | the map filled from the rows in order has exactly the keys that occur in them |
| Models.LastRowWins | frontend/app/page.tsx:46-49 | for a repeated key, the later row wins: a key holds the value of its last row |
| SiteContentCrud.GetByKey | backend/app/crud/crud_site_content.py:10-11 | returns a row holding exactly that key, and None exactly when no row has that key |
| SiteContentCrud.GetByKeyFindsRow | backend/app/crud/crud_site_content.py:10-11 | with unique keys, looking up any row's key returns that row |
| SiteContentCrud.GetBySection | backend/app/crud/crud_site_content.py:13-14 | returns exactly the rows of that section (every one, none other) in table order |
| SiteContentCrud.GetMulti | backend/app/crud/crud_site_content.py:16-17 | returns at most `limit` rows, the i-th being table row `skip + i`, and a full page when enough rows follow `skip` |
| SiteContentCrud.MakeCreate | backend/app/schemas/site_content.py:4-12 | the create schema keeps every given field and defaults an omitted `content_type` to "TEXT" |
| SiteContentCrud.Create | backend/app/crud/crud_site_content.py:19-30 | a new key is appended as a row built from the schema fields; a key already present fails the unique constraint and leaves the table unchanged |
| SiteContentCrud.CreateKeepsKeysUnique | backend/app/crud/crud_site_content.py:19-30 | a created row copies all five fields, keys stay unique, the new key finds the new row and every other key's lookup is unchanged |
| SiteContentCrud.SetAttr | backend/app/crud/crud_site_content.py:38-40 | setting an attribute gives it the value and leaves every other attribute; a name that is not an attribute changes nothing |
| SiteContentCrud.Lookup | backend/app/crud/crud_site_content.py:38-40 | a field is absent exactly when no entry names it; a found value is the value of some entry naming it |
| SiteContentCrud.ApplyFieldsSpec | backend/app/crud/crud_site_content.py:32-40 | after the update loop each attribute holds the last value the input gives it, or its old value when the input does not name it |
| SiteContentCrud.RowByAttributes | backend/app/crud/crud_site_content.py:38-40 | two rows that agree on every attribute are equal, so the loop's per-attribute effect fixes the whole row |
| SiteContentCrud.SchemaSetsOnlyContent | backend/app/crud/crud_site_content.py:33-36 | with the `SiteContentUpdate` schema only `content` changes |
| SiteContentCrud.Update | backend/app/crud/crud_site_content.py:32-45 | the row at the index becomes the loop's result; a key changed to one another row holds fails the commit and changes nothing |
| SiteContentApi.ReadSiteContent | backend/app/api/v1/endpoints/site_content.py:21-23 | a non-empty section returns exactly that section's rows; otherwise a page of at most `limit` rows starting at `skip` |
| SiteContentApi.ReadSectionIgnoresPaging | backend/app/api/v1/endpoints/site_content.py:21-22 | with a section given, `skip` and `limit` do not change the result |
| SiteContentApi.BulkUpdate | backend/app/api/v1/endpoints/site_content.py:35-46 | the loop leaves the table and the returned list equal to the specification functions of the bulk update over the entries in order |
| SiteContentApi.BulkKeepsShape | backend/app/api/v1/endpoints/site_content.py:36-45 | the bulk update adds no row and changes nothing but `content` |
| SiteContentApi.BulkSetsContent | backend/app/api/v1/endpoints/site_content.py:36-41 | a row whose key the input names ends with the last value given for it; every other row keeps its content |
| SiteContentApi.BulkResultLength | backend/app/api/v1/endpoints/site_content.py:39-45 | the result has one entry per input entry whose key exists; unknown keys add nothing |
| SiteContentApi.BulkResultAt | backend/app/api/v1/endpoints/site_content.py:39-41 | the m-th returned row is the row of the m-th known key, carrying that entry's value |
| SiteContentApi.BulkUpdateSpec | backend/app/api/v1/endpoints/site_content.py:35-46 | for distinct input keys: known keys get the new content, unknown keys are ignored, other fields stay, and the result lists exactly the updated rows in input order |
| SiteContentApi.InitializeDefaults | backend/app/api/v1/endpoints/site_content.py:57-62 | the table becomes the seeded table and the returned count is the number of rows created |
| SiteContentApi.SeedKeepsPrefix | backend/app/api/v1/endpoints/site_content.py:58-61 | seeding only appends: the existing rows stay in place |
| SiteContentApi.SeedAddsMissing | backend/app/api/v1/endpoints/site_content.py:59-60 | every appended row is the new row of an item whose key was missing |
| SiteContentApi.SeedKeepsExisting | backend/app/api/v1/endpoints/site_content.py:57-62 | existing rows are kept in place and every added row comes from an item whose key was missing |
| SiteContentApi.SeedCoversItems | backend/app/api/v1/endpoints/site_content.py:57-62 | afterwards every item's key is present, and keys stay unique |
| SiteContentApi.SeedNothingMissing | backend/app/api/v1/endpoints/site_content.py:59 | when every item's key is already present nothing is created |
| SiteContentApi.SeedIdempotent | backend/app/api/v1/endpoints/site_content.py:57-62 | seeding twice is the same as seeding once, so the second call returns 0 |
| SeedContent.HeroKeys | backend/scripts/seed_content.py:27-33 | every HERO default is in section HERO with a key starting "hero_" |
| SeedContent.HeroDistinct | backend/scripts/seed_content.py:27-33 | the HERO default keys are pairwise distinct |
| SeedContent.AboutKeys | backend/scripts/seed_content.py:34-42 | every ABOUT default is in section ABOUT with a key starting "about_" |
| SeedContent.AboutDistinct | backend/scripts/seed_content.py:34-42 | the ABOUT default keys are pairwise distinct |
| SeedContent.ImpactKeys | backend/scripts/seed_content.py:43-54 | every IMPACT default is in section IMPACT with a key starting "impact_" |
| SeedContent.ImpactDistinct | backend/scripts/seed_content.py:43-54 | the IMPACT default keys are pairwise distinct |
| SeedContent.FooterKeys | backend/scripts/seed_content.py:55-56 | every FOOTER default is in section FOOTER with a key starting "footer_" |
| SeedContent.FooterDistinct | backend/scripts/seed_content.py:55-56 | the FOOTER default keys are pairwise distinct |
| SeedContent.CommunityKeys | backend/scripts/seed_content.py:57-78 | every COMMUNITY default is in section COMMUNITY with a key starting "community_" |
| SeedContent.CommunityDistinct | backend/scripts/seed_content.py:57-78 | the COMMUNITY default keys are pairwise distinct |
| SeedContent.MediaKeys | backend/scripts/seed_content.py:80-82 | every MEDIA default is in section MEDIA with a key starting "media_" |
| SeedContent.MediaDistinct | backend/scripts/seed_content.py:80-82 | the MEDIA default keys are pairwise distinct |
| SeedContent.SectionPrefixes | backend/scripts/seed_content.py:26-83 | each section name lower-cased and followed by '_' is the key prefix its defaults use |
| SeedContent.DefaultsShape | backend/scripts/seed_content.py:26-83 | there are 37 defaults, their keys are pairwise distinct, and each key starts with its own section in lower case followed by '_' |
| SeedContent.Seed | backend/scripts/seed_content.py:86-92 | the script's loop leaves the table as the missing-key seeding of the defaults |
| SeedContent.Rows | backend/scripts/seed_content.py:91 | the rows created from the items are, one for one and in order, the rows `create` builds |
| SeedContent.SeedIntoEmpty | backend/scripts/seed_content.py:86-92 | on an empty table items with distinct keys are all created, in order |
| SeedContent.SeedFromEmpty | backend/scripts/seed_content.py:86-92 | on an empty store the script creates exactly the 37 defaults, and a second run changes nothing |
| ForceSeedCommunity.CommunityDataShape | backend/scripts/force_seed_community.py:17-39 | the listed entries equal the COMMUNITY defaults of the content seed, with distinct keys in section COMMUNITY |
| ForceSeedCommunity.Upsert | backend/scripts/force_seed_community.py:43-51 | the loop leaves the table as the create-or-overwrite of the items in order |
| ForceSeedCommunity.ForceSeed | backend/scripts/force_seed_community.py:43-51 | running the script upserts the listed community entries, all of which have content |
| ForceSeedCommunity.UpsertKeepsExisting | backend/scripts/force_seed_community.py:49-51 | existing rows stay in place and only their content may change; the label passed to `SiteContentUpdate` is never applied |
| ForceSeedCommunity.UpsertStepSpec | backend/scripts/force_seed_community.py:44-51 | one iteration leaves the item's key holding the item's content, keeps keys unique and changes no other key's row |
| ForceSeedCommunity.DropLastItem | backend/scripts/force_seed_community.py:43 | the items before the last keep distinct keys and content, and none shares the last one's key |
| ForceSeedCommunity.UpsertCovers | backend/scripts/force_seed_community.py:43-51 | afterwards every listed key exists with the listed content, and keys stay unique |
| ForceSeedCommunity.UpsertNothingNew | backend/scripts/force_seed_community.py:43-51 | a table already holding every item with its content is left as it is |
| ForceSeedCommunity.UpsertIdempotent | backend/scripts/force_seed_community.py:43-51 | a second run leaves the store as the first left it |
| MediaService.GetMulti | backend/app/services/media_service.py:14-18 | at most `limit` items, all from the table, and all of the requested type when a non-empty type is given |
| MediaService.GetMultiComplete | backend/app/services/media_service.py:14-18 | a first page large enough holds every item of the requested type (every item without one), newest first; the type match is exact |
| MediaService.MakeMediaCreate | backend/app/services/media_service.py:7-12 | the create schema keeps the given fields and defaults `media_type` to "IMAGE" and `category` to "GALLERY" |
| MediaService.NewMedia | backend/app/services/media_service.py:21-28 | the inserted row copies every schema field and is always featured |
| MediaService.Create | backend/app/services/media_service.py:20-32 | the new item is appended; an id already in the table fails the commit and changes nothing |
| MediaService.CreatedListedFirst | backend/app/services/media_service.py:18 | a freshly created item is first in the next listing, unfiltered and filtered by its own type |
| MediaService.GetById | backend/app/services/media_service.py:35 | finds an item with that id, and finds none exactly when no item has it |
| MediaService.Delete | backend/app/services/media_service.py:34-39 | an existing item is removed and returned; an unknown id returns None and leaves the table unchanged |
| MediaService.RemovedFilters | backend/app/services/media_service.py:34-39 | with unique ids, deleting removes exactly that item and keeps every other in order |
| MediaService.FilterIdsUnique | backend/app/services/media_service.py:34-39 | removing items keeps ids unique |
| MediaService.DeleteTwice | backend/app/services/media_service.py:34-39 | after a delete the id is gone, and deleting it again changes nothing |
| MediaEndpoint.ReadMedia | backend/app/api/v1/endpoints/media.py:32 | the listing is the service's, so with a type every item has that type |
| MediaEndpoint.DeleteMedia | backend/app/api/v1/endpoints/media.py:56-60 | an unknown id answers 404 "Media not found" and changes nothing; a known one is removed and answered with status "success" and the id |
| MediaEndpoint.Extension | backend/app/api/v1/endpoints/media.py:93 | the extension never contains '.' |
| MediaEndpoint.Upload | backend/app/api/v1/endpoints/media.py:88-106 | a failure while saving answers 500 "Could not save file: " plus its text; otherwise the URL is /static/uploads/ plus the stored name |
| MediaEndpoint.ExtensionSpec | backend/app/api/v1/endpoints/media.py:93 | the extension is the text after the last '.', or the whole name when there is none |
| MediaEndpoint.StoredNameKeepsExtension | backend/app/api/v1/endpoints/media.py:93-94 | the stored name has the upload's extension, whatever the uuid |
| MediaEndpoint.UploadUrlShape | backend/app/api/v1/endpoints/media.py:92-102 | every successful upload's URL starts with /static/uploads/ and ends in '.' plus the upload's extension |
| ContactEndpoint.NewMessage | backend/app/api/v1/endpoints/contact.py:19-24 | the inserted message copies name, email, subject and message, and starts unread |
| ContactEndpoint.FindMessage | backend/app/api/v1/endpoints/contact.py:57 | finds a message with that id, and none exactly when no message has it |
| ContactEndpoint.CreateMessage | backend/app/api/v1/endpoints/contact.py:19-28 | the message is appended and returned; an id already taken fails the commit and changes nothing |
| ContactEndpoint.ReadMessages | backend/app/api/v1/endpoints/contact.py:43 | at most `limit` messages, the i-th being the (skip+i)-th newest, and a full page when enough messages exist |
| ContactEndpoint.CreatedListedFirst | backend/app/api/v1/endpoints/contact.py:19-43 | a new message heads the first page, followed by the messages that page showed before |
| ContactEndpoint.MarkRead | backend/app/api/v1/endpoints/contact.py:61 | only the chosen message changes, and only its `is_read`, to the given value |
| ContactEndpoint.UpdateMessage | backend/app/api/v1/endpoints/contact.py:57-65 | an unknown id answers 404 "Message not found" and changes nothing; a known one gets `is_read` set and is returned |
| ContactEndpoint.MarkReadKeepsIds | backend/app/api/v1/endpoints/contact.py:57-65 | marking keeps every id, so ids stay unique and the message is found again at the same place; repeating the mark changes nothing |
| Auth.LoginUrl | backend/app/api/v1/endpoints/auth.py:19-21 | the redirect is the configured authorization URI, '?', and the consent query |
| Auth.LoginQueryItems | backend/app/api/v1/endpoints/auth.py:20 | when client id and redirect URI hold no '&' or '=', the query splits into exactly the items response_type=code, client_id, redirect_uri and scope with their values |
| Auth.EscapedSpacesDecode | backend/app/api/v1/endpoints/auth.py:20 | the scope "openid%20email%20profile" decodes to the three words separated by spaces |
| Auth.Admit | backend/app/api/v1/endpoints/auth.py:43-67 | admitted exactly when the token reply has no error, the profile has an email, and that email is authorized; otherwise 400 with the error description, 400 "no email", or 403, in that order |
| Auth.FindUser | backend/app/api/v1/endpoints/auth.py:70 | finds a user with that email, and none exactly when no user has it |
| Auth.NewUser | backend/app/api/v1/endpoints/auth.py:72-78 | a first sign-in creates an active user with the profile's name and the placeholder password, superuser exactly when the email is a super-admin's |
| Auth.GoogleCallback | backend/app/api/v1/endpoints/auth.py:23-91 | a refused sign-in raises the refusal; an admitted one stores the user and redirects to the frontend callback carrying the token |
| Auth.CallbackSpec | backend/app/api/v1/endpoints/auth.py:58-81 | emails stay unique; a refusal adds no user; an admission leaves exactly one user with that email, reused unchanged if present, otherwise new, active, and superuser exactly for super-admins |
| Auth.CallbackIdempotent | backend/app/api/v1/endpoints/auth.py:70-81 | signing in a second time with the same replies changes nothing more |
| Auth.SuperuserNeedsAuthorization | backend/app/api/v1/endpoints/auth.py:63-77 | if every superuser's email is authorized before, it is after: a super-admin missing from the authorized list never gets in |
| Config.TokenLifetimeIsEightDays | backend/app/core/config.py:48 | the token lifetime of 11520 minutes is eight days |
| Config.CommaList | backend/app/core/config.py:21 | one entry per comma-separated piece, each piece stripped |
| Config.AssembleCorsOrigins | backend/app/core/config.py:19-24 | raises exactly for a value that is neither string nor list; a string not starting with '[' becomes its stripped comma pieces; anything else passes unchanged |
| Config.ParseLists | backend/app/core/config.py:70-80 | a string not starting with '[' becomes its stripped comma pieces, one starting with '[' its JSON decoding or [] when that fails; a non-string passes unchanged |
| Config.CommaListShape | backend/app/core/config.py:19-24 | there is one entry more than commas, and no entry holds a comma or has whitespace at either end |
| Config.StripIsSlice | backend/app/core/config.py:21 | stripping only removes characters at the ends |
| Config.StripTrimmed | backend/app/core/config.py:21 | stripping an already trimmed string leaves it as it is |
| Config.CommaListRoundTrip | backend/app/core/config.py:19-24 | trimmed, comma-free entries joined with ',' parse back to the same entries under both validators |
| Config.ValidatorsIdempotent | backend/app/core/config.py:70-80 | running a validator on its own output changes nothing |
| ChapaService.Headers | backend/app/services/chapa.py:12-15 | two headers: Authorization as "Bearer " plus the secret key, and a JSON content type |
| ChapaService.InitializeUrl | backend/app/services/chapa.py:28 | the base URL followed by /transaction/initialize |
| ChapaService.VerifyUrl | backend/app/services/chapa.py:54 | the base URL and /transaction/verify/ followed by the reference |
| ChapaService.VerifyUrlInjective | backend/app/services/chapa.py:54 | different references are verified at different URLs |
| ChapaService.AmountText | backend/app/services/chapa.py:30 | the amount text always contains a decimal point, as Python prints a float |
| ChapaService.AmountTextReadsBack | backend/app/services/chapa.py:30 | the text sent reads back as exactly the amount |
| ChapaService.WholeAmountText | backend/app/services/chapa.py:30 | a whole amount is sent ending in ".0" |
| ChapaService.DropNone | backend/app/services/chapa.py:42 | every present entry is kept with its value and every kept entry was present |
| ChapaService.Field | backend/app/services/chapa.py:29-42 | the value of a key is an entry of the payload, and none exactly when no entry has that key |
| ChapaService.PayloadFields | backend/app/services/chapa.py:29-42 | currency is always ETB and the amount its text; donor fields and reference are sent as given; each optional entry is present exactly when it is not None, with its value |
| ChapaService.DropNoneField | backend/app/services/chapa.py:42 | with distinct keys, dropping None keeps each present entry under its key and removes each absent one |
| ApiClient.ListPairs | frontend/lib/api.ts:74-87 | the query pairs are skip and limit, followed by the filter pair exactly when the filter is truthy |
| ApiClient.ListUrl | frontend/lib/api.ts:74-87 | the URL built step by step is the path, '?', and the query of the list pairs |
| ApiClient.PageQuery | frontend/lib/api.ts:74-87 | the paging query is "skip=S&limit=L" with both numbers in decimal |
| ApiClient.GetMediaUrl | frontend/lib/api.ts:74-78 | the media list URL carries `media_type` exactly when a type is given |
| ApiClient.GetDonationsUrl | frontend/lib/api.ts:83-87 | the donation list URL carries `campaign_id` exactly when an id is given |
| ApiClient.ContactMessagesUrl | frontend/lib/api.ts:183-184 | the message list URL carries only the paging values |
| ApiClient.ListUrlReadsBack | frontend/lib/api.ts:74-87 | a list query splits back into skip, limit and, exactly when the filter is truthy, the filter, each with its value |
| ApiClient.DefaultPaging | frontend/lib/api.ts:74-87 | without arguments the builders ask for skip 0 and limit 100 |
| ApiClient.SiteContentUrl | frontend/lib/api.ts:141-142 | "?section=X" is appended exactly when a section is given |
| ApiClient.UploadMedia | frontend/lib/api.ts:101-112 | every call throws |
| ApiClient.WithToken | frontend/lib/api.ts:13-17 | in a browser with a truthy stored token the Authorization header is "Bearer " plus the token; otherwise the headers are unchanged; no other header changes |
| ApiClient.Intercept | frontend/lib/api.ts:12-19 | the interceptor returns the same config, with its headers set as the token rule says |
| ApiClient.WithTokenIdempotent | frontend/lib/api.ts:13-17 | running the interceptor twice is running it once, and the token reads back from the header |
| CmsPage.Grouping | frontend/app/admin/cms/page.tsx:10-16 | there is a bucket exactly for each section that occurs in the rows |
| CmsPage.GroupBySection | frontend/app/admin/cms/page.tsx:10-16 | the `reduce` builds exactly the grouping: each section's rows in input order |
| CmsPage.GroupedIsGrouping | frontend/app/admin/cms/page.tsx:11-15 | pushing the rows one by one yields the grouping by section |
| CmsPage.GroupingStep | frontend/app/admin/cms/page.tsx:12-13 | one more row goes to the end of its own section's bucket, created if missing; other buckets stay |
| CmsPage.RowInOwnBucket | frontend/app/admin/cms/page.tsx:10-16 | every row is in its section's bucket, and every bucket holds only rows of its section |
| CmsPage.BucketSizesSum | frontend/app/admin/cms/page.tsx:10-16 | the bucket sizes add up to the number of rows: no row is lost or counted twice |
| CmsPage.FormValue | frontend/app/admin/cms/page.tsx:38 | a row's form value is its content, or "" when it has none |
| CmsPage.InitialForm | frontend/app/admin/cms/page.tsx:36-39 | the form holds exactly the loaded keys, each with the form value of its last row |
| CmsPage.BuildForm | frontend/app/admin/cms/page.tsx:36-39 | the loop builds the form holding each key with the content of its last row |
| CmsPage.Edited | frontend/app/admin/cms/page.tsx:48-50 | the edited key holds the new value and every other key keeps its own |
| CmsPage.EditsCompose | frontend/app/admin/cms/page.tsx:48-50 | of two edits of one key the later wins; edits of different keys commute |
| CmsPage.AfterUpload | frontend/app/admin/cms/page.tsx:52-60 | a successful upload puts its URL in the key; a failed one leaves the form alone |
| CmsPage.Editor.LoadContent | frontend/app/admin/cms/page.tsx:29-46 | on success the content is grouped by section and the form rebuilt; on failure both stay; the spinner stops either way |
| CmsPage.Editor.HandleInputChange | frontend/app/admin/cms/page.tsx:48-50 | the form becomes the edited form |
| CmsPage.Editor.HandleFileUpload | frontend/app/admin/cms/page.tsx:52-60 | the form takes the upload's URL on success, and an alert is shown exactly on failure |
| CmsPage.Editor.HandleSave | frontend/app/admin/cms/page.tsx:63-79 | the whole form is sent; after a saved bulk update and a successful reload the page shows the reloaded content; otherwise it is unchanged; saving ends |
| CmsPage.Panels | frontend/app/admin/cms/page.tsx:518-523 | a known tab renders its own panel first, and the fallback exactly when it is known and not in the exclusions |
| CmsPage.RenderedPanels | frontend/app/admin/cms/page.tsx:519 | a known tab renders its own panel first; the fallback is rendered under the VIDEOS tab and no other |
| CmsPage.IntendedPanels | frontend/app/admin/cms/page.tsx:519 | the fallback is never rendered, and a known tab renders its own panel alone |
| CmsPage.VideosTabShowsFallback | frontend/app/admin/cms/page.tsx:518-523 | the VIDEOS tab, and only it, renders two panels: the video gallery and the "Select a section to edit." fallback |
| CmsPage.IntendedOnePanel | frontend/app/admin/cms/page.tsx:518-523 | with VIDEOS also excluded, every tab renders exactly its own panel |
| HomePage.BuildContentMap | frontend/app/page.tsx:46-49 | the `forEach` builds the map holding each key with the content of its last row |
| HomePage.ContentMap | frontend/app/page.tsx:46-49 | the map holds exactly the loaded keys, each with the content of its last row |
| HomePage.Text | frontend/app/page.tsx:21 | the stored text when it is present and non-empty; the fallback for a missing key, null content or "" alike |
| HomePage.TextOfLastRow | frontend/app/page.tsx:21-49 | looking up a loaded key gives its last row's text, or the fallback when that text is null or empty |
| HomePage.MissingKeyFallsBack | frontend/app/page.tsx:21-49 | a key no row has always shows the fallback |
| HomePage.Marquee | frontend/app/page.tsx:328 | the strip holds the images twice over, in order, so its second half repeats its first |
| HomePage.Next | frontend/app/page.tsx:23-25 | the next index stays in range, wraps from the last video to the first, and otherwise adds one |
| HomePage.Prev | frontend/app/page.tsx:27-29 | the previous index stays in range, wraps from the first video to the last, and otherwise subtracts one |
| HomePage.PrevNextInverse | frontend/app/page.tsx:23-29 | back after forward, and forward after back, return to the same video |
| HomePage.Forward | frontend/app/page.tsx:23-25 | any number of forward steps stays in range |
| HomePage.ForwardWraps | frontend/app/page.tsx:23-25 | up to n steps forward land on i + k, less n once past the end, so n steps return to the start |
| HomePage.Dots | frontend/app/page.tsx:424-432 | one dot per video, highlighted exactly for the current one |
| HomePage.OneDotHighlighted | frontend/app/page.tsx:424-432 | exactly one dot is highlighted |
| HomePage.VideoTitle | frontend/app/page.tsx:414 | the video's title when it is non-empty, "Untitled Video" otherwise |
| HomePage.Home.FetchData | frontend/app/page.tsx:31-59 | when all four requests succeed the page holds campaigns, images, videos and the content map; when any fails only the spinner changes |
| HomePage.Home.NextVideo | frontend/app/page.tsx:23-25 | the right arrow moves to the next video and keeps the index in range |
| HomePage.Home.PrevVideo | frontend/app/page.tsx:27-29 | the left arrow moves to the previous video and keeps the index in range |
| HomePage.Home.SelectVideo | frontend/app/page.tsx:424-432 | a dot click shows that dot's video |
| DonationModal.ViewOf | frontend/components/DonationModal.tsx:130-147 | the success view exactly when `defaultSuccess` is set; otherwise the card form exactly while a client secret is held, the options exactly while none is |
| DonationModal.Initialize | frontend/components/DonationModal.tsx:149-203 | an invalid amount alerts and sends nothing; Chapa with an e-mail lacking '@' alerts and sends nothing; a valid Chapa request redirects to a returned checkout URL or alerts on failure; a Stripe request stores the returned secret or alerts on failure |
| DonationModal.InitializeGuards | frontend/components/DonationModal.tsx:149-203 | something is sent exactly when the amount is valid and, for Chapa, the e-mail has '@'; the amount sent is positive; the card form opens exactly after a Stripe reply carrying a secret; only Chapa redirects |
| DonationModal.Modal.constructor | frontend/components/DonationModal.tsx:122-127 | the modal starts at amount "50", no e-mail, Stripe, no secret, not loading |
| DonationModal.Modal.SetAmount | frontend/components/DonationModal.tsx:240-256 | the amount becomes the chosen or typed value |
| DonationModal.Modal.SetEmail | frontend/components/DonationModal.tsx:321 | the e-mail becomes the typed value |
| DonationModal.Modal.SetGateway | frontend/components/DonationModal.tsx:268-288 | the gateway becomes the chosen one |
| DonationModal.Modal.BackToOptions | frontend/components/DonationModal.tsx:360 | the secret is dropped and the options show again |
| DonationModal.Modal.InitializePayment | frontend/components/DonationModal.tsx:149-203 | the "Continue" button sends, shows and stores what the initialization step says, and the loading flag is down after any request |
| DonationModal.ReturnTarget | frontend/components/DonationModal.tsx:48-51 | Stripe's return URL is the origin plus /donate, with `campaign` set exactly when there is a campaign title |
| DonationModal.Submit | frontend/components/DonationModal.tsx:53-83 | a confirmation error shows its message (or the generic one) and verifies nothing; a confirmation shows success; the backend is asked to verify exactly when the intent is read and has succeeded, with its id, the campaign, the amount and the e-mail |
| DonationModal.ConfirmedMeansSuccess | frontend/components/DonationModal.tsx:60-83 | once Stripe confirms, the thank-you view shows whatever the intent lookup or the backend call does; a confirmation error never shows it |
| DonationModal.CheckoutForm.constructor | frontend/components/DonationModal.tsx:35-37 | the form starts with no error, not processing, not succeeded |
| DonationModal.CheckoutForm.HandleSubmit | frontend/components/DonationModal.tsx:39-84 | before Stripe has loaded nothing happens; otherwise the form's state becomes the submit step's, and processing is over on every path |
| DonatePage.Get | frontend/app/donate/page.tsx:19-20 | the value of a pair with that name, and none exactly when no pair has it |
| DonatePage.CampaignParam | frontend/app/donate/page.tsx:28-33 | the `campaign` parameter when present and non-empty, and none exactly otherwise |
| DonatePage.Decide | frontend/app/donate/page.tsx:19-22 | the listener verifies exactly when `redirect_status` is "succeeded" and `tx_ref` is non-empty, with that reference and the campaign parameter |
| DonatePage.ChapaReturnIsVerified | frontend/app/donate/page.tsx:17-44 | the return URL the backend gives Chapa brings the browser back to a listener that verifies that very reference and shows success for that very campaign |
| DonatePage.DecideReturnParams | frontend/app/donate/page.tsx:19-34 | the three return parameters trigger verification of the reference, with the title when it is not empty |
| DonatePage.Page.constructor | frontend/app/donate/page.tsx:62-65 | the page starts with the dialog closed, not on its thank-you view, with no campaign selected |
| DonatePage.Page.DialogView | frontend/app/donate/page.tsx:118-126 | the dialog shows exactly while open, on its thank-you view exactly when the success flag is set |
| DonatePage.Page.OpenDonationModal | frontend/app/donate/page.tsx:94-98 | "Donate now" opens the dialog on its options for the campaign |
| DonatePage.Page.HandlePaymentSuccess | frontend/app/donate/page.tsx:100-104 | the listener's callback opens the dialog on its thank-you view for the campaign |
| DonatePage.Page.CloseModal | frontend/app/donate/page.tsx:123 | closing hides the dialog |
| DonatePage.Page.VerifyChapa | frontend/app/donate/page.tsx:18-41 | without a successful return nothing changes; with one the reference's verification is requested and, whatever its answer, the thank-you dialog opens for the campaign, the address is reset to /donate and the spinner stops |
| DonatePage.ReturnFromChapa | frontend/app/donate/page.tsx:18-41 | coming back from a Chapa payment shows the thank-you view for the payment's campaign, whether or not verification succeeded |
| DonatePage.Progress | frontend/app/donate/page.tsx:251-266 | the bar never exceeds 100%; with a positive goal it is full exactly when the goal is reached and otherwise the raised share; a goal of 0 is read as one major unit (100 minor units), so the bar fills at one dollar or birr |
| DonatePage.UsdProgress | frontend/app/donate/page.tsx:251 | the dollar bar never exceeds 100% and, with a positive goal, is full exactly when the dollars raised reach it |
| DonatePage.EtbProgress | frontend/app/donate/page.tsx:266 | the birr bar never exceeds 100% and, with a positive goal, is full exactly when the birr raised reach it |
| DonatePage.RatioBelowHundred | frontend/app/donate/page.tsx:251-266 | the percentage is below 100 exactly when the amount is below the goal |
| DonatePage.ProgressCapped | frontend/app/donate/page.tsx:251 | a campaign past its goal shows a full bar, not a longer one |
| AdminDonations.CampaignFilter | frontend/app/admin/donations/page.tsx:18 | the empty choice ("All Campaigns") asks for no campaign; any other choice asks for itself |
| AdminDonations.FilterReadsBack | frontend/app/admin/donations/page.tsx:51-61 | the list request carries `campaign_id` exactly when a campaign or "general" is chosen, with the choice as its value |
| AdminDonations.TotalsAppend | frontend/app/admin/donations/page.tsx:68-72 | no currency is counted by both totals; one more row adds its amount to the total of its own spelling and to no other |
| AdminDonations.TotalsPartition | frontend/app/admin/donations/page.tsx:68-72 | the USD total, the ETB total and the uncounted rest add up to the sum of all amounts |
| AdminDonations.IsUsd | frontend/app/admin/donations/page.tsx:68-72 | the USD total counts the upper-case "USD" the backend stores, and only spellings of "usd" |
| AdminDonations.IsEtb | frontend/app/admin/donations/page.tsx:68-72 | the ETB total counts only spellings of "etb", never a currency the USD total counts |
| AdminDonations.UsdTotal | frontend/app/admin/donations/page.tsx:68-72 | a list with no USD row totals 0 dollars |
| AdminDonations.EtbTotal | frontend/app/admin/donations/page.tsx:68-72 | a list with no ETB row totals 0 birr |
| AdminDonations.AmountPrefixAsWritten | frontend/app/admin/donations/page.tsx:139 | the page prints '$' exactly for the currency spelled 'usd' and 'ETB ' for everything else |
| AdminDonations.StripeDollarsShownAsEtb | frontend/app/admin/donations/page.tsx:139 | a Stripe dollar payment, stored as 'USD', is counted in the USD total but printed with 'ETB ' |
| AdminDonations.AmountPrefix | frontend/app/admin/donations/page.tsx:139 | the corrected prefix is '$' exactly for the rows the USD total counts |
| AdminDonations.StoredCurrenciesShownRight | frontend/app/admin/donations/page.tsx:139 | with the corrected prefix Stripe dollars show '$', Chapa birr show 'ETB ', and a row shows '$' exactly when the USD total counts it |
| AdminDonations.CampaignLabel | frontend/app/admin/donations/page.tsx:146 | the campaign title when non-empty, "General Donation" otherwise |
| AdminDonations.Highlighted | frontend/app/admin/donations/page.tsx:145 | the label is highlighted exactly when it shows something other than "General Donation" |
| AdminDonations.HighlightedIffNamed | frontend/app/admin/donations/page.tsx:145-146 | a label is highlighted exactly when it names something other than the general fund; a donation linked to no campaign is never highlighted |
| AdminDonations.DonorLabel | frontend/app/admin/donations/page.tsx:150 | the donor name when non-empty, "Anonymous Donor" otherwise |
| AdminDonations.EmailLabel | frontend/app/admin/donations/page.tsx:151 | the donor e-mail when non-empty, "-" otherwise |
| AdminDonations.BadgeOf | frontend/app/admin/donations/page.tsx:95-134 | the Success, Pending and Failed badges show exactly for the statuses spelled SUCCESS, PENDING and FAILED |
| AdminDonations.OffersCheckStatus | frontend/app/admin/donations/page.tsx:100-105 | "Check Status" is offered only on rows that show the Pending badge |
| AdminDonations.BadgesCoverStatuses | frontend/app/admin/donations/page.tsx:95-134 | every status the backend stores gets a badge, and "Check Status" is offered for exactly the pending Chapa donations |
| AdminDonations.CheckStatus | frontend/app/admin/donations/page.tsx:107-121 | without a transaction id nothing is requested and "No transaction ID found" is alerted; otherwise the reference is verified, a 'success' reply reloads, another status or a failure is alerted with its text |
| AdminDonations.DonationsAdmin.constructor | frontend/app/admin/donations/page.tsx:8-11 | the page starts empty, loading, with "All Campaigns" chosen |
| AdminDonations.DonationsAdmin.FetchData | frontend/app/admin/donations/page.tsx:13-32 | the donation list is requested for the current choice; on success both lists are replaced, on failure they stay; loading ends |
| AdminDonations.DonationsAdmin.SelectCampaign | frontend/app/admin/donations/page.tsx:13-32 | a choice in the drop-down is stored and the lists are fetched again for it |
| AdminMessages.FilteredIsSublist | frontend/app/admin/messages/page.tsx:27-32 | the filtered list keeps the messages' order and holds a message exactly when its name, e-mail, subject or text contains the term, ignoring case |
| AdminMessages.Matches | frontend/app/admin/messages/page.tsx:27-31 | an empty term matches every message; a message without a subject matches exactly when its name, e-mail or text contains the term, ignoring case |
| AdminMessages.FilteredMessages | frontend/app/admin/messages/page.tsx:27-31 | the filtered list holds every matching message and only messages of the list that match |
| AdminMessages.EmptySearchKeepsAll | frontend/app/admin/messages/page.tsx:27-32 | an empty search shows every message, in order |
| AdminMessages.SearchIgnoresCase | frontend/app/admin/messages/page.tsx:28-31 | upper- or lower-casing the term does not change which messages match |
| AdminMessages.SubjectlessMatchesOtherFields | frontend/app/admin/messages/page.tsx:30 | a message without a subject matches exactly when its name, e-mail or text contains the term |
| AdminMessages.Avatar | frontend/app/admin/messages/page.tsx:65 | the avatar is the name's first letter upper-cased, empty for an empty name |
| AdminMessages.ReplyHref | frontend/app/admin/messages/page.tsx:92 | the reply link mails the sender with subject "Re: " and the message's subject, or "Re: Your Inquiry" when it has none |
| AdminMessages.Inbox.constructor | frontend/app/admin/messages/page.tsx:9-11 | the inbox starts empty, loading, with no search term |
| AdminMessages.Inbox.Shown | frontend/app/admin/messages/page.tsx:27-32 | the cards shown keep the messages' order, and all of them show for an empty search |
| AdminMessages.Inbox.FetchMessages | frontend/app/admin/messages/page.tsx:13-25 | the first page of messages is requested; on success it replaces the list, on failure the list stays; loading ends |
| AdminMessages.Inbox.SetSearchTerm | frontend/app/admin/messages/page.tsx:48 | the search term becomes the typed text |
| ContactSection.LastIndexOf | frontend/components/ContactSection.tsx:98 | the position found holds the character and none follows it, and none is found exactly when it does not occur |
| ContactSection.AcceptsEmail | frontend/components/ContactSection.tsx:95-100 | the test accepts exactly the strings the e-mail regular expression matches |
| ContactSection.AcceptedShape | frontend/components/ContactSection.tsx:98 | an accepted address has exactly one '@' with something before it, ends with '.' and at least two letters, and has no whitespace |
| ContactSection.CaseInsensitive | frontend/components/ContactSection.tsx:98 | under the `i` flag, upper- or lower-casing an address does not change whether it is accepted |
| ContactSection.AcceptsSample | frontend/components/ContactSection.tsx:98 | "info@wkms.org" is accepted |
| ContactSection.RejectsSamples | frontend/components/ContactSection.tsx:98 | "@wkms.org" and "info@wkms.o" are refused |
| ContactSection.Validate | frontend/components/ContactSection.tsx:79-129 | name and message are flagged exactly when empty; the e-mail is flagged "Email is required" when empty and "Invalid email address" when it does not match |
| ContactSection.ValidationRules | frontend/components/ContactSection.tsx:79-129 | a form passes exactly when name and message are filled and the e-mail matches; the subject never matters |
| ContactSection.ErrorText | frontend/components/ContactSection.tsx:31 | the server's detail when present, the default text otherwise |
| ContactSection.Payload | frontend/components/ContactSection.tsx:21-24 | the form's fields are sent as typed, the subject included even when blank |
| ContactSection.BlankSubjectRepliedAsInquiry | frontend/components/ContactSection.tsx:118 | a message sent with a blank subject is stored with an empty subject and answered under "Re: Your Inquiry" |
| ContactSection.Contact.constructor | frontend/components/ContactSection.tsx:17-19 | the form starts empty, idle, without an error |
| ContactSection.Contact.Edit | frontend/components/ContactSection.tsx:79-129 | the form holds the typed fields |
| ContactSection.Contact.BeginSubmit | frontend/components/ContactSection.tsx:21-24 | the form is sent, and the status becomes `submitting`, exactly when every rule passes |
| ContactSection.Contact.CompleteSubmit | frontend/components/ContactSection.tsx:24-32 | success shows the thank-you panel and empties the form; failure shows the server's detail or the default text and keeps the form |
| ContactSection.Contact.ResetStatus | frontend/components/ContactSection.tsx:27-62 | "Send another message" and the timer bring back the idle form with an enabled button |
| AdminSidebar.ActiveFlags | frontend/components/AdminSidebar.tsx:54-57 | each link is highlighted exactly on its own path and on the paths below it, separated by '/' |
| AdminSidebar.IsActive | frontend/components/AdminSidebar.tsx:57 | an active link's path begins the current path, and when the two differ the current path continues with '/' |
| AdminSidebar.ActiveIsPrefix | frontend/components/AdminSidebar.tsx:57 | an active link's path is a prefix of the current path |
| AdminSidebar.AtMostOneActiveAmong | frontend/components/AdminSidebar.tsx:57 | among paths none of which extends another, at most one is active for any current path |
| AdminSidebar.Hrefs | frontend/components/AdminSidebar.tsx:25-33 | the sidebar's paths, one per link, in order |
| AdminSidebar.LinksSeparated | frontend/components/AdminSidebar.tsx:25-33 | none of the six paths extends another |
| AdminSidebar.AtMostOneActive | frontend/components/AdminSidebar.tsx:25-57 | whatever the current path, at most one sidebar link is highlighted, and the six paths are distinct |
| AdminSidebar.SubRoutes | frontend/components/AdminSidebar.tsx:56-57 | a page below Campaigns highlights Campaigns, and a path that only begins with the same letters does not |
| AdminSidebar.SignOut | frontend/components/AdminSidebar.tsx:80-84 | "Sign Out" removes the stored token, keeps every other stored entry and goes to /admin/login |
| AdminSidebar.GetItem | frontend/components/AdminSidebar.tsx:82 | a stored value is read exactly when its key is stored |
| AdminSidebar.SignedOutSendsNoToken | frontend/components/AdminSidebar.tsx:80-84 | after signing out, the API client sends requests without an Authorization header |
| AdminGallery.WithoutId | frontend/app/admin/gallery/page.tsx:32 | the list after a delete holds no item with the id and every other item |
| AdminGallery.WithoutIdKeepsOrder | frontend/app/admin/gallery/page.tsx:32 | a delete keeps the other items in their order, and changes nothing when no item has the id |
| AdminGallery.DeleteMatchesServer | frontend/app/admin/gallery/page.tsx:19-32 | when the page holds the server's whole list, removing the item locally gives what the server would now list |
| AdminGallery.StoredTypesShownRight | frontend/app/admin/gallery/page.tsx:83 | an item created as "VIDEO" plays as a video; one created without a type is stored as an image and shows as one |
| AdminGallery.IsVideo | frontend/app/admin/gallery/page.tsx:83 | an item plays as a video for the "VIDEO" the backend stores and only for spellings of "video" |
| AdminGallery.UploadLink | frontend/app/admin/gallery/page.tsx:41 | the upload link carries "?type=X" exactly when the page is limited to a type |
| AdminGallery.UploadLinkReadsBack | frontend/app/admin/gallery/page.tsx:41 | the upload page reads the type back from the link |
| AdminGallery.LoadingLabel | frontend/app/admin/gallery/page.tsx:39 | the spinner names the type lower-cased with an 's', or "gallery" |
| AdminGallery.UploadButtonLabel | frontend/app/admin/gallery/page.tsx:66 | the embedded upload button says "Video" exactly for the type "VIDEO", "Media" otherwise |
| AdminGallery.ItemTitle | frontend/app/admin/gallery/page.tsx:121 | the item's title when non-empty, "Untitled" otherwise |
| AdminGallery.Gallery.constructor | frontend/app/admin/gallery/page.tsx:9-11 | the gallery starts empty and loading, for its type |
| AdminGallery.Gallery.FetchMedia | frontend/app/admin/gallery/page.tsx:13-26 | the first hundred items of the type are requested; on success they replace the list, on failure it stays; loading ends |
| AdminGallery.Gallery.HandleDelete | frontend/app/admin/gallery/page.tsx:28-37 | the request is sent exactly after confirmation; on success the item leaves the list; on failure an alert shows and the list stays |
| Common.NewestFirst | backend/app/api/v1/endpoints/donation.py:38 | a page ordered newest first holds at most `limit` rows, each selected and from the table |
| Common.NewestFirstComplete | backend/app/api/v1/endpoints/donation.py:38 | a page large enough lists every selected row, newest first |
| Common.NewestFirstPages | backend/app/api/v1/endpoints/donation.py:38 | consecutive pages fit together: a rows and then b more are the same as a + b rows |
| Common.Strip | backend/app/core/config.py:21 | `strip` gives the slice between the leading and trailing whitespace, with no whitespace at either end |
| Common.Lower | backend/app/services/campaign_service.py:11 | lower-casing keeps the length and maps each ASCII upper-case letter to lower case, other characters unchanged |
| UrlEncoding.QuotePlus | backend/app/api/v1/endpoints/chapa.py:68 | an encoded component holds only safe characters, never '&', '=' or a space |
| UrlEncoding.UrlEncode | backend/app/api/v1/endpoints/chapa.py:68 | a non-empty list of pairs encodes to a query that splits at '&' into exactly one item per pair |
| UrlEncoding.UnquotePlus | backend/app/api/v1/endpoints/chapa.py:68 | decoding never lengthens the text, and gives empty text exactly for empty text |
| UrlEncoding.ParseQuery | backend/app/api/v1/endpoints/chapa.py:68 | parsing yields at most one pair per '&'-separated item, and nothing for an empty query |
| UrlEncoding.ParseItems | backend/app/api/v1/endpoints/chapa.py:68 | at most one pair per item, and none from items without '=' |
| UrlEncoding.UnquoteQuote | backend/app/api/v1/endpoints/chapa.py:68 | decoding, which reassembles the escapes of each UTF-8 sequence, undoes `quote_plus` on every text |
| UrlEncoding.ParseUrlEncode | backend/app/api/v1/endpoints/chapa.py:68 | parsing the encoded query gives back every pair, in order |

## Left out

- Network and SDK calls are not modelled: httpx to Chapa and Google, the Stripe SDK, axios and
  Stripe Elements. Their replies are inputs of the members that use them.
- The webhook's HMAC-SHA256 digest is not computed. It is an input, and only the equality gate
  on it is modelled.
- Database mechanics are not modelled: sessions, commit, refresh and `joinedload`. A unique
  or primary key violated on commit is modelled as the exception it raises, with the tables
  left as they were.
- Generated values are inputs: uuids, the 4-character slug suffix, server timestamps, and the
  JWT minted by `security.create_access_token`. `setTimeout` is modelled as
  `ContactSection.Contact.ResetStatus`, with no clock.
- Donations and site-content rows are identified by transaction id and by key, not by their
  surrogate uuid `id` column.
- Floating-point money is not modelled. Amounts are integers in minor units, and the Stripe
  amount of `cents / 100` dollars is kept as its cents. The frontend's `Number(amount)` is given
  as an input, as a real or None for NaN. `toLocaleString` formatting and `Intl` dates are not
  modelled.
- ChapaService.AmountText: models Python's `str` of a float for amounts in whole santim, in
  positional notation. Python switches to exponent notation from 10^16 birr, and binary rounding
  of the float is not modelled.
- Library parsing and validation are not modelled: `json.loads` (its result is an input of
  `Config.ParseLists`), Pydantic and `EmailStr` validation, and `PostgresDsn.build`.
- Case mapping and whitespace cover ASCII only. Python's `lower()`/`strip()` and JavaScript's
  `toLowerCase()`/`toUpperCase()` have full Unicode behaviour.
- The file write of the media upload, the static mount and the CORS middleware are not
  modelled. A failure while saving is an input of `MediaEndpoint.Upload`.
- React rendering, styling and animation are not modelled, apart from which panels, views,
  labels and badges show. `window.location` redirects and reloads are returned as values.
- Thin wrappers with no rules of their own are not modelled separately:
  - `create_media`, which passes its input to `MediaService.Create`;
  - the `/media/test` endpoint;
  - `CRUDSiteContent.get` by id;
  - the campaign endpoints and the router;
  - the api.ts calls other than the list builders and `uploadMedia`: `getCampaigns`,
    `getCampaign`, `deleteMedia`, `createCampaign`, `submitMediaUrl`,
    `initializeChapaPayment`, `bulkUpdateSiteContent`, `uploadFile` and `submitContactMessage`.
- Other files are not part of this model:
  - backend/app/models/contact.py, user.py, media.py and campaign.py, and the schema files
    other than site_content.py. Their fields are taken as the endpoints use them.
  - The operational scripts (prestart.py, create_tables.py, debug and inspect scripts).
- Auth.LoginQueryItems: the client id and redirect URI are interpolated without escaping, as in
  the source. The query is shown to read back only when they hold no '&' or '='.
- ApiClient.ListUrlReadsBack: arguments are interpolated without escaping, as in the source. The
  query is shown to read back only for a filter key and value free of '&' and '='. Negative `skip` or `limit`
  values are not modelled, because the list builders take naturals.
- DonationEndpoint.ReadDonations: `skip` and `limit` are naturals. The endpoint takes any integer,
  and the database refuses a negative OFFSET or LIMIT with an error the model does not have.
- CampaignService.GetMulti: `skip` and `limit` are naturals; a negative value, which the source
  passes on to the database and which fails there, is not modelled.
- SiteContentCrud.GetMulti: `skip` and `limit` are naturals; a negative value, which fails in the
  database, is not modelled.
- SiteContentApi.ReadSiteContent: `skip` and `limit` are naturals; a negative value, which fails in
  the database on the paging branch, is not modelled.
- MediaService.GetMulti: `skip` and `limit` are naturals; a negative value, which fails in the
  database, is not modelled.
- MediaEndpoint.ReadMedia: `skip` and `limit` are naturals; a negative value, which fails in the
  database, is not modelled.
- ContactEndpoint.ReadMessages: `skip` and `limit` are naturals; a negative value, which fails in
  the database, is not modelled.
- UrlEncoding.UnquotePlus: an escaped byte that begins no well-formed UTF-8 sequence decodes to
  one U+FFFD on its own. The browser and Python replace each maximal ill-formed run by a single
  U+FFFD, so the two can differ on malformed input. Nothing the backend writes is malformed.
- DonationModal.Submit: the Stripe return URL's serialisation by `URL.searchParams` is given as
  the origin, path and pairs (`DonationModal.ReturnTarget`), not as a string.
- HomePage.Next: a carousel with no videos is excluded; the arrows are not shown then, and
  JavaScript's `% 0` would give NaN.
- ContactEndpoint.ReadMessages: the date formatting of the inbox is not modelled.
- The 422 answers FastAPI gives for a body that fails its schema are not modelled. Where the
  frontend reads `detail` from an error, a list-shaped `detail` is treated as absent.

## Findings

| source | as written | input that shows it | evidently intended | confidence | as-written member | corrected member |
|---|---|---|---|---|---|---|
| frontend/app/admin/cms/page.tsx:518-523 | the fallback "Select a section to edit." is shown for every tab not in a list of sections, and that list leaves out VIDEOS, so the VIDEOS tab renders the video gallery and the fallback under it | activeTab "VIDEOS" | every section tab renders its own panel only | not executed | CmsPage.VideosTabShowsFallback | CmsPage.IntendedOnePanel |
| frontend/app/admin/donations/page.tsx:139 | the amount cell prints '$' only for a currency spelled exactly 'usd', but the backend (backend/app/api/v1/endpoints/donation.py:115) stores a Stripe payment's currency upper-cased, so every card donation in dollars is printed as "ETB" while the page's USD total counts it | a Stripe intent with currency "usd", stored as "USD" | '$' for exactly the rows the USD total counts | not executed | AdminDonations.StripeDollarsShownAsEtb | AdminDonations.StoredCurrenciesShownRight |
