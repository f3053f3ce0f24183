/**
 The foreign keys of the database, as the migrations declare them: which column of
 which table points where, and what happens to the pointing row when its target is
 deleted.  A comment beside each table names the migrations its constraints come from.
 */
module TenantSchema {
  import opened Wrappers

  datatype Table =
    Companies | Users | Employees | Packagings | Products | ProductPrices | Customers | Suppliers | Banks
    | Wallets | CashRegisters | CashRegisterLogs | FinancialMovements | Purchases | PurchaseLines
    | PurchasePayments | PurchaseCredits | TicketSettings | AppSettings | AppAlerts | AlertConfigs
    | SaleInvoices | SaleInvoiceLines | SalePayments | SaleCredits | CreditNotes | CreditNoteLines
    | CorrectionSources | Expenses | Categories | Carriers | CarrierCredits | CarrierPayments
    | ProductCostHistory | ProductPriceHistory | FixedExpenses | FixedExpensePeriods | DeliveryCompanies
    | Deliveries | Subscriptions | InventoryMovements | CustomerAdvances | CompanyMembers | InventoryShares
    | Roles | SaleStatusHistory | AgreementAcceptances | ComboComponents | UserActivationTokens
    | PasswordResetTokens | TaxRates | CustomerCategories | Salons | RestaurantTables | AiPendingActions
    | AiDailyCreditUsage | AiUsageEvents | AiAttachments | LoanPlans | Loans | SubscriptionPayments
    | SalesBotConfigs | SalesBotSettings | SalesBotTakeovers | SalesBotConversations
    | ProductAssistantProfiles | ProductSearchEmbeddings | SalesAgentFollowUps | SalesAgentOrders
    | PushSubscriptions

  datatype Column =
    CompanyId | ParentId | PackagingId | ProductId | CashRegisterId | SupplierId | PurchaseId | CustomerId
    | SaleInvoiceId | ProductPriceId | CreditNoteId | OriginalLineId | CategoryId | CarrierId
    | CarrierCreditId | BankId | WalletId | FinancialMovementId | CostHistoryId | UserId | InvoiceId
    | PaymentId | FixedExpenseId | AlertId | ExpenseId | DeliveryCompanyId | OwnerUserId | SourceCompanyId
    | TargetCompanyId | RoleId | ComboProductId | ComponentProductId | TaxRateId | SalonId | TableId
    | AssignedToUserId | LoanPlanId | SubscriptionId | StatusChangedByUserId

  datatype OnDelete = Cascade | SetNull | Restrict | NoAction

  /** A foreign key is identified by the table and column that carry it. */
  datatype Key = Key(child: Table, column: Column)

  datatype Rule = Rule(parent: Table, onDelete: OnDelete)

  type Catalog = map<Key, Rule>

  /** The constraints in force before the tenant-cascade migration. */
  function BaseRule(child: Table, column: Column): Option<Rule> {
    var rule := MasterRule(child, column);
    if rule.Some? then rule else DocumentRule(child, column)
  }

  /** Those of master data, purchases and settings. */
  function MasterRule(child: Table, column: Column): Option<Rule>
  {
    match child
    case Users => (  // 1747008060000
      match column
      case CompanyId => Some(Rule(Companies, Restrict))
      case _ => None)
    case Employees => (  // 1747008120000, 1747010340000
      match column
      case CompanyId => Some(Rule(Companies, Restrict))
      case UserId => Some(Rule(Users, SetNull))
      case _ => None)
    case Packagings => (  // 1747008180000
      match column
      case CompanyId => Some(Rule(Companies, Restrict))
      case _ => None)
    case Products => (  // 1747008240000, 1747009740000
      match column
      case CompanyId => Some(Rule(Companies, Restrict))
      case ParentId => Some(Rule(Products, Restrict))
      case PackagingId => Some(Rule(Packagings, SetNull))
      case CategoryId => Some(Rule(Categories, SetNull))
      case _ => None)
    case ProductPrices => (  // 1747008300000
      match column
      case ProductId => Some(Rule(Products, Cascade))
      case CompanyId => Some(Rule(Companies, Restrict))
      case _ => None)
    case Customers => (  // 1747008360000
      match column
      case CompanyId => Some(Rule(Companies, Restrict))
      case _ => None)
    case Suppliers => (  // 1747008420000
      match column
      case CompanyId => Some(Rule(Companies, Restrict))
      case _ => None)
    case Banks => (  // 1747008480000
      match column
      case CompanyId => Some(Rule(Companies, Restrict))
      case _ => None)
    case Wallets => (  // 1747008540000
      match column
      case CompanyId => Some(Rule(Companies, Restrict))
      case _ => None)
    case CashRegisters => (  // 1747008600000, 1747010100000
      match column
      case CompanyId => Some(Rule(Companies, Restrict))
      case UserId => Some(Rule(Users, SetNull))
      case _ => None)
    case CashRegisterLogs => (  // 1747008660000, 1747010160000
      match column
      case CashRegisterId => Some(Rule(CashRegisters, Restrict))
      case CompanyId => Some(Rule(Companies, Restrict))
      case InvoiceId => Some(Rule(SaleInvoices, SetNull))
      case PaymentId => Some(Rule(SalePayments, SetNull))
      case CreditNoteId => Some(Rule(CreditNotes, SetNull))
      case _ => None)
    case FinancialMovements => (  // 1747008720000
      match column
      case CompanyId => Some(Rule(Companies, Restrict))
      case _ => None)
    case Purchases => (  // 1747008780000, 1747010900000
      match column
      case CompanyId => Some(Rule(Companies, Restrict))
      case SupplierId => Some(Rule(Suppliers, Restrict))
      case CarrierId => Some(Rule(Carriers, Restrict))
      case _ => None)
    case PurchaseLines => (  // 1747008840000
      match column
      case CompanyId => Some(Rule(Companies, Restrict))
      case PurchaseId => Some(Rule(Purchases, Cascade))
      case ProductId => Some(Rule(Products, Restrict))
      case PackagingId => Some(Rule(Packagings, Restrict))
      case SupplierId => Some(Rule(Suppliers, Restrict))
      case _ => None)
    case PurchasePayments => (  // 1747008900000
      match column
      case CompanyId => Some(Rule(Companies, Restrict))
      case PurchaseId => Some(Rule(Purchases, Cascade))
      case _ => None)
    case PurchaseCredits => (  // 1747008960000
      match column
      case CompanyId => Some(Rule(Companies, Restrict))
      case PurchaseId => Some(Rule(Purchases, Cascade))
      case SupplierId => Some(Rule(Suppliers, Restrict))
      case _ => None)
    case TicketSettings => (  // 1747009020000
      match column
      case CompanyId => Some(Rule(Companies, Restrict))
      case _ => None)
    case AppSettings => (  // 1747009080000
      match column
      case CompanyId => Some(Rule(Companies, Restrict))
      case _ => None)
    case AppAlerts => (  // 1747009140000
      match column
      case CompanyId => Some(Rule(Companies, Restrict))
      case _ => None)
    case AlertConfigs => (  // 1747009200000
      match column
      case CompanyId => Some(Rule(Companies, Restrict))
      case _ => None)
    case _ => None
  }

  /** Those of sales, treasury and history. */
  function DocumentRule(child: Table, column: Column): Option<Rule>
  {
    match child
    case SaleInvoices => (  // 1747009260000
      match column
      case CompanyId => Some(Rule(Companies, Restrict))
      case CustomerId => Some(Rule(Customers, SetNull))
      case _ => None)
    case SaleInvoiceLines => (  // 1747009320000
      match column
      case CompanyId => Some(Rule(Companies, Restrict))
      case SaleInvoiceId => Some(Rule(SaleInvoices, Cascade))
      case ProductId => Some(Rule(Products, Restrict))
      case PackagingId => Some(Rule(Packagings, Restrict))
      case ProductPriceId => Some(Rule(ProductPrices, Restrict))
      case _ => None)
    case SalePayments => (  // 1747009380000
      match column
      case CompanyId => Some(Rule(Companies, Restrict))
      case SaleInvoiceId => Some(Rule(SaleInvoices, Cascade))
      case _ => None)
    case SaleCredits => (  // 1747009440000
      match column
      case CompanyId => Some(Rule(Companies, Restrict))
      case SaleInvoiceId => Some(Rule(SaleInvoices, Cascade))
      case CustomerId => Some(Rule(Customers, Restrict))
      case _ => None)
    case CreditNotes => (  // 1747009500000
      match column
      case CompanyId => Some(Rule(Companies, Restrict))
      case SaleInvoiceId => Some(Rule(SaleInvoices, Restrict))
      case CustomerId => Some(Rule(Customers, SetNull))
      case _ => None)
    case CreditNoteLines => (  // 1747009560000
      match column
      case CompanyId => Some(Rule(Companies, Restrict))
      case CreditNoteId => Some(Rule(CreditNotes, Cascade))
      case OriginalLineId => Some(Rule(SaleInvoiceLines, SetNull))
      case ProductId => Some(Rule(Products, Restrict))
      case PackagingId => Some(Rule(Packagings, Restrict))
      case _ => None)
    case CorrectionSources => (  // 1747009620000
      match column
      case CompanyId => Some(Rule(Companies, Restrict))
      case CreditNoteId => Some(Rule(CreditNotes, Cascade))
      case _ => None)
    case Expenses => (  // 1747009680000
      match column
      case CompanyId => Some(Rule(Companies, Restrict))
      case _ => None)
    case Categories => (  // 1747009740000
      match column
      case CompanyId => Some(Rule(Companies, Restrict))
      case _ => None)
    case Carriers => (  // 1747009800000
      match column
      case CompanyId => Some(Rule(Companies, Restrict))
      case _ => None)
    case CarrierCredits => (  // 1747009860000
      match column
      case CompanyId => Some(Rule(Companies, Restrict))
      case CarrierId => Some(Rule(Carriers, Restrict))
      case PurchaseId => Some(Rule(Purchases, Restrict))
      case _ => None)
    case CarrierPayments => (  // 1747009920000
      match column
      case CompanyId => Some(Rule(Companies, Restrict))
      case CarrierCreditId => Some(Rule(CarrierCredits, Restrict))
      case BankId => Some(Rule(Banks, Restrict))
      case WalletId => Some(Rule(Wallets, Restrict))
      case FinancialMovementId => Some(Rule(FinancialMovements, Restrict))
      case _ => None)
    case ProductCostHistory => (  // 1747009980000
      match column
      case CompanyId => Some(Rule(Companies, Restrict))
      case ProductId => Some(Rule(Products, Restrict))
      case PurchaseId => Some(Rule(Purchases, SetNull))
      case _ => None)
    case ProductPriceHistory => (  // 1747010040000
      match column
      case CompanyId => Some(Rule(Companies, Restrict))
      case ProductPriceId => Some(Rule(ProductPrices, Restrict))
      case ProductId => Some(Rule(Products, Restrict))
      case CostHistoryId => Some(Rule(ProductCostHistory, SetNull))
      case _ => None)
    case FixedExpenses => (  // 1747010700000
      match column
      case CompanyId => Some(Rule(Companies, Restrict))
      case _ => None)
    case FixedExpensePeriods => (  // 1747010700000, 1747010920000
      match column
      case CompanyId => Some(Rule(Companies, Restrict))
      case FixedExpenseId => Some(Rule(FixedExpenses, Cascade))
      case AlertId => Some(Rule(AppAlerts, SetNull))
      case ExpenseId => Some(Rule(Expenses, SetNull))
      case _ => None)
    case DeliveryCompanies => (  // 1747011060000
      match column
      case CompanyId => Some(Rule(Companies, Restrict))
      case _ => None)
    case Deliveries => (  // 1747011080000
      match column
      case CompanyId => Some(Rule(Companies, Restrict))
      case InvoiceId => Some(Rule(SaleInvoices, SetNull))
      case DeliveryCompanyId => Some(Rule(DeliveryCompanies, Restrict))
      case _ => None)
    case Subscriptions => (  // 1747011100000
      match column
      case CompanyId => Some(Rule(Companies, Cascade))
      case OwnerUserId => Some(Rule(Users, Cascade))
      case _ => None)
    case InventoryMovements => (  // 1747010860000
      match column
      case CompanyId => Some(Rule(Companies, Restrict))
      case ProductId => Some(Rule(Products, Restrict))
      case _ => None)
    case _ => None
  }

  /** The constraints the tenant-cascade migration drops and adds again with another ON DELETE. */
  function ForwardRule(child: Table, column: Column): Option<Rule>
  {
    match child
    case Users => (  // 1747011300000
      match column
      case CompanyId => Some(Rule(Companies, Cascade))
      case _ => None)
    case Employees => (  // 1747011300000
      match column
      case CompanyId => Some(Rule(Companies, Cascade))
      case _ => None)
    case Packagings => (  // 1747011300000
      match column
      case CompanyId => Some(Rule(Companies, Cascade))
      case _ => None)
    case Products => (  // 1747011300000
      match column
      case CompanyId => Some(Rule(Companies, Cascade))
      case ParentId => Some(Rule(Products, NoAction))
      case _ => None)
    case ProductPrices => (  // 1747011300000
      match column
      case CompanyId => Some(Rule(Companies, Cascade))
      case _ => None)
    case Customers => (  // 1747011300000
      match column
      case CompanyId => Some(Rule(Companies, Cascade))
      case _ => None)
    case Suppliers => (  // 1747011300000
      match column
      case CompanyId => Some(Rule(Companies, Cascade))
      case _ => None)
    case Banks => (  // 1747011300000
      match column
      case CompanyId => Some(Rule(Companies, Cascade))
      case _ => None)
    case Wallets => (  // 1747011300000
      match column
      case CompanyId => Some(Rule(Companies, Cascade))
      case _ => None)
    case CashRegisters => (  // 1747011300000
      match column
      case CompanyId => Some(Rule(Companies, Cascade))
      case _ => None)
    case CashRegisterLogs => (  // 1747011300000
      match column
      case CompanyId => Some(Rule(Companies, Cascade))
      case CashRegisterId => Some(Rule(CashRegisters, NoAction))
      case _ => None)
    case FinancialMovements => (  // 1747011300000
      match column
      case CompanyId => Some(Rule(Companies, Cascade))
      case _ => None)
    case Purchases => (  // 1747011300000
      match column
      case CompanyId => Some(Rule(Companies, Cascade))
      case CarrierId => Some(Rule(Carriers, NoAction))
      case SupplierId => Some(Rule(Suppliers, NoAction))
      case _ => None)
    case PurchaseLines => (  // 1747011300000
      match column
      case CompanyId => Some(Rule(Companies, Cascade))
      case SupplierId => Some(Rule(Suppliers, NoAction))
      case ProductId => Some(Rule(Products, NoAction))
      case PackagingId => Some(Rule(Packagings, NoAction))
      case _ => None)
    case PurchasePayments => (  // 1747011300000
      match column
      case CompanyId => Some(Rule(Companies, Cascade))
      case _ => None)
    case PurchaseCredits => (  // 1747011300000
      match column
      case CompanyId => Some(Rule(Companies, Cascade))
      case SupplierId => Some(Rule(Suppliers, NoAction))
      case _ => None)
    case TicketSettings => (  // 1747011300000
      match column
      case CompanyId => Some(Rule(Companies, Cascade))
      case _ => None)
    case AppSettings => (  // 1747011300000
      match column
      case CompanyId => Some(Rule(Companies, Cascade))
      case _ => None)
    case AppAlerts => (  // 1747011300000
      match column
      case CompanyId => Some(Rule(Companies, Cascade))
      case _ => None)
    case AlertConfigs => (  // 1747011300000
      match column
      case CompanyId => Some(Rule(Companies, Cascade))
      case _ => None)
    case SaleInvoices => (  // 1747011300000
      match column
      case CompanyId => Some(Rule(Companies, Cascade))
      case _ => None)
    case SaleInvoiceLines => (  // 1747011300000
      match column
      case CompanyId => Some(Rule(Companies, Cascade))
      case PackagingId => Some(Rule(Packagings, NoAction))
      case ProductPriceId => Some(Rule(ProductPrices, NoAction))
      case ProductId => Some(Rule(Products, NoAction))
      case _ => None)
    case SalePayments => (  // 1747011300000
      match column
      case CompanyId => Some(Rule(Companies, Cascade))
      case _ => None)
    case SaleCredits => (  // 1747011300000
      match column
      case CompanyId => Some(Rule(Companies, Cascade))
      case CustomerId => Some(Rule(Customers, NoAction))
      case _ => None)
    case CreditNotes => (  // 1747011300000
      match column
      case CompanyId => Some(Rule(Companies, Cascade))
      case SaleInvoiceId => Some(Rule(SaleInvoices, NoAction))
      case _ => None)
    case CreditNoteLines => (  // 1747011300000
      match column
      case CompanyId => Some(Rule(Companies, Cascade))
      case PackagingId => Some(Rule(Packagings, NoAction))
      case ProductId => Some(Rule(Products, NoAction))
      case _ => None)
    case CorrectionSources => (  // 1747011300000
      match column
      case CompanyId => Some(Rule(Companies, Cascade))
      case _ => None)
    case Expenses => (  // 1747011300000
      match column
      case CompanyId => Some(Rule(Companies, Cascade))
      case _ => None)
    case Categories => (  // 1747011300000
      match column
      case CompanyId => Some(Rule(Companies, Cascade))
      case _ => None)
    case Carriers => (  // 1747011300000
      match column
      case CompanyId => Some(Rule(Companies, Cascade))
      case _ => None)
    case CarrierCredits => (  // 1747011300000
      match column
      case CompanyId => Some(Rule(Companies, Cascade))
      case CarrierId => Some(Rule(Carriers, NoAction))
      case PurchaseId => Some(Rule(Purchases, NoAction))
      case _ => None)
    case CarrierPayments => (  // 1747011300000
      match column
      case CompanyId => Some(Rule(Companies, Cascade))
      case WalletId => Some(Rule(Wallets, NoAction))
      case CarrierCreditId => Some(Rule(CarrierCredits, NoAction))
      case BankId => Some(Rule(Banks, NoAction))
      case FinancialMovementId => Some(Rule(FinancialMovements, NoAction))
      case _ => None)
    case ProductCostHistory => (  // 1747011300000
      match column
      case CompanyId => Some(Rule(Companies, Cascade))
      case ProductId => Some(Rule(Products, NoAction))
      case _ => None)
    case ProductPriceHistory => (  // 1747011300000
      match column
      case CompanyId => Some(Rule(Companies, Cascade))
      case ProductPriceId => Some(Rule(ProductPrices, NoAction))
      case ProductId => Some(Rule(Products, NoAction))
      case _ => None)
    case FixedExpenses => (  // 1747011300000
      match column
      case CompanyId => Some(Rule(Companies, Cascade))
      case _ => None)
    case FixedExpensePeriods => (  // 1747011300000
      match column
      case CompanyId => Some(Rule(Companies, Cascade))
      case _ => None)
    case DeliveryCompanies => (  // 1747011300000
      match column
      case CompanyId => Some(Rule(Companies, Cascade))
      case _ => None)
    case Deliveries => (  // 1747011300000
      match column
      case CompanyId => Some(Rule(Companies, Cascade))
      case DeliveryCompanyId => Some(Rule(DeliveryCompanies, NoAction))
      case _ => None)
    case InventoryMovements => (  // 1747011300000
      match column
      case CompanyId => Some(Rule(Companies, Cascade))
      case ProductId => Some(Rule(Products, NoAction))
      case _ => None)
    case _ => None
  }

  /** The constraints added, or replaced, by migrations that run after it. */
  function LaterRule(child: Table, column: Column): Option<Rule>
  {
    match child
    case Employees => (  // 1747011860000
      match column
      case RoleId => Some(Rule(Roles, SetNull))
      case _ => None)
    case Products => (  // 1747012540000
      match column
      case TaxRateId => Some(Rule(TaxRates, Restrict))
      case _ => None)
    case Customers => (  // 1747012640000
      match column
      case CategoryId => Some(Rule(CustomerCategories, SetNull))
      case _ => None)
    case SaleInvoices => (  // 1747012720000, 1747012760000
      match column
      case TableId => Some(Rule(RestaurantTables, SetNull))
      case SalonId => Some(Rule(Salons, SetNull))
      case AssignedToUserId => Some(Rule(Users, SetNull))
      case _ => None)
    case SaleInvoiceLines => (  // 1747012300000
      match column
      case ProductPriceId => Some(Rule(ProductPrices, SetNull))
      case _ => None)
    case SalePayments => (  // 1747012380000
      match column
      case CreditNoteId => Some(Rule(CreditNotes, SetNull))
      case _ => None)
    case ProductPriceHistory => (  // 1747012300000
      match column
      case ProductPriceId => Some(Rule(ProductPrices, SetNull))
      case _ => None)
    case CustomerAdvances => (  // 1747011560000
      match column
      case CompanyId => Some(Rule(Companies, Restrict))
      case CustomerId => Some(Rule(Customers, Restrict))
      case _ => None)
    case CompanyMembers => (  // 1747011640000
      match column
      case UserId => Some(Rule(Users, Cascade))
      case CompanyId => Some(Rule(Companies, Cascade))
      case _ => None)
    case InventoryShares => (  // 1747011760000
      match column
      case SourceCompanyId => Some(Rule(Companies, Restrict))
      case TargetCompanyId => Some(Rule(Companies, Restrict))
      case ProductId => Some(Rule(Products, Cascade))
      case _ => None)
    case Roles => (  // 1747011840000
      match column
      case CompanyId => Some(Rule(Companies, Restrict))
      case _ => None)
    case SaleStatusHistory => (  // 1747011980000
      match column
      case CompanyId => Some(Rule(Companies, Restrict))
      case SaleInvoiceId => Some(Rule(SaleInvoices, Cascade))
      case _ => None)
    case AgreementAcceptances => (  // 1747012200000
      match column
      case CompanyId => Some(Rule(Companies, Cascade))
      case _ => None)
    case ComboComponents => (  // 1747012220000
      match column
      case CompanyId => Some(Rule(Companies, Cascade))
      case ComboProductId => Some(Rule(Products, Cascade))
      case ComponentProductId => Some(Rule(Products, NoAction))
      case _ => None)
    case UserActivationTokens => (  // 1747012320000
      match column
      case UserId => Some(Rule(Users, Cascade))
      case _ => None)
    case PasswordResetTokens => (  // 1747012340000
      match column
      case UserId => Some(Rule(Users, Cascade))
      case _ => None)
    case CustomerCategories => (  // 1747012640000
      match column
      case CompanyId => Some(Rule(Companies, Restrict))
      case _ => None)
    case Salons => (  // 1747012700000
      match column
      case CompanyId => Some(Rule(Companies, Cascade))
      case _ => None)
    case RestaurantTables => (  // 1747012700000
      match column
      case CompanyId => Some(Rule(Companies, Cascade))
      case SalonId => Some(Rule(Salons, SetNull))
      case _ => None)
    case AiPendingActions => (  // 1747012900000
      match column
      case CompanyId => Some(Rule(Companies, Cascade))
      case _ => None)
    case AiDailyCreditUsage => (  // 1747012920000
      match column
      case CompanyId => Some(Rule(Companies, Cascade))
      case _ => None)
    case AiUsageEvents => (  // 1747012920000
      match column
      case CompanyId => Some(Rule(Companies, Cascade))
      case _ => None)
    case AiAttachments => (  // 1747012960000
      match column
      case CompanyId => Some(Rule(Companies, Cascade))
      case _ => None)
    case LoanPlans => (  // 1747012960000
      match column
      case CompanyId => Some(Rule(Companies, Cascade))
      case _ => None)
    case Loans => (  // 1747012980000
      match column
      case CompanyId => Some(Rule(Companies, Cascade))
      case CustomerId => Some(Rule(Customers, Restrict))
      case LoanPlanId => Some(Rule(LoanPlans, SetNull))
      case _ => None)
    case SubscriptionPayments => (  // 1747012980000
      match column
      case CompanyId => Some(Rule(Companies, Cascade))
      case SubscriptionId => Some(Rule(Subscriptions, Cascade))
      case OwnerUserId => Some(Rule(Users, Cascade))
      case _ => None)
    case SalesBotConfigs => (  // 1747013000000
      match column
      case CompanyId => Some(Rule(Companies, Cascade))
      case _ => None)
    case SalesBotSettings => (  // 1747013020000
      match column
      case CompanyId => Some(Rule(Companies, Cascade))
      case _ => None)
    case SalesBotTakeovers => (  // 1747013020000
      match column
      case CompanyId => Some(Rule(Companies, Cascade))
      case _ => None)
    case SalesBotConversations => (  // 1747013040000
      match column
      case CompanyId => Some(Rule(Companies, Cascade))
      case _ => None)
    case ProductAssistantProfiles => (  // 1747013060000
      match column
      case CompanyId => Some(Rule(Companies, Cascade))
      case ProductId => Some(Rule(Products, Cascade))
      case _ => None)
    case ProductSearchEmbeddings => (  // 1747013060000
      match column
      case CompanyId => Some(Rule(Companies, Cascade))
      case ProductId => Some(Rule(Products, Cascade))
      case _ => None)
    case SalesAgentFollowUps => (  // 1747013150000
      match column
      case CompanyId => Some(Rule(Companies, Cascade))
      case CustomerId => Some(Rule(Customers, Cascade))
      case _ => None)
    case SalesAgentOrders => (  // 1747013090000, 1747013110000
      match column
      case CompanyId => Some(Rule(Companies, Cascade))
      case StatusChangedByUserId => Some(Rule(Users, SetNull))
      case SaleInvoiceId => Some(Rule(SaleInvoices, SetNull))
      case _ => None)
    case PushSubscriptions => (  // 1747013140000
      match column
      case UserId => Some(Rule(Users, Cascade))
      case CompanyId => Some(Rule(Companies, Cascade))
      case _ => None)
    case _ => None
  }

  function SchemaBefore(): Catalog {
    map t: Table, c: Column | BaseRule(t, c).Some? :: Key(t, c) := BaseRule(t, c).value
  }

  function ForwardStatements(): Catalog {
    map t: Table, c: Column | ForwardRule(t, c).Some? :: Key(t, c) := ForwardRule(t, c).value
  }

  /** What the migration's `down` adds back: the same constraints, all RESTRICT. */
  function BackwardStatements(): Catalog {
    map t: Table, c: Column | ForwardRule(t, c).Some? ::
      Key(t, c) := Rule(ForwardRule(t, c).value.parent, Restrict)
  }

  function LaterStatements(): Catalog {
    map t: Table, c: Column | LaterRule(t, c).Some? :: Key(t, c) := LaterRule(t, c).value
  }

  function SchemaAfterUp(): Catalog {
    SchemaBefore() + ForwardStatements()
  }

  function SchemaLatest(): Catalog {
    SchemaAfterUp() + LaterStatements()
  }

  // ------------------------------------------------------------------------
  // What these lists say
  // ------------------------------------------------------------------------

  /** The NOT NULL column that ties a row of a tenant table to its company, or to the user it belongs to. */
  function TenantColumn(t: Table): Option<Column> {
    if t in {Companies, TaxRates, Users} then None
    else if t == InventoryShares then Some(SourceCompanyId)
    else if t in {UserActivationTokens, PasswordResetTokens} then Some(UserId)
    else Some(CompanyId)
  }

  /** The tables whose own link to `companies` is RESTRICT in the latest schema. */
  predicate Withheld(t: Table) {
    t in {CustomerAdvances, InventoryShares, Roles, SaleStatusHistory, CustomerCategories}
  }

  lemma MasterParents(t: Table, c: Column)
    requires MasterRule(t, c).Some?
    ensures MasterRule(t, c).value.parent != Loans
  {
  }

  lemma MasterShallow(t: Table, c: Column)
    requires MasterRule(t, c).Some?
    ensures Shallow(Key(t, c), MasterRule(t, c).value)
  {
    if MasterRule(t, c).value.onDelete == Cascade { MasterCascades(t, c); }
  }

  lemma MasterCascades(t: Table, c: Column)
    requires MasterRule(t, c).Some? && MasterRule(t, c).value.onDelete == Cascade
    ensures Attached(t) && (MasterRule(t, c).value.parent == Products || MasterRule(t, c).value.parent == Purchases)
  {
  }

  lemma DocumentParents(t: Table, c: Column)
    requires DocumentRule(t, c).Some?
    ensures DocumentRule(t, c).value.parent != Loans
  {
  }

  lemma DocumentShallow(t: Table, c: Column)
    requires DocumentRule(t, c).Some?
    ensures Shallow(Key(t, c), DocumentRule(t, c).value)
  {
    if DocumentRule(t, c).value.onDelete == Cascade { DocumentCascades(t, c); }
  }

  lemma DocumentCascades(t: Table, c: Column)
    requires DocumentRule(t, c).Some? && DocumentRule(t, c).value.onDelete == Cascade
    ensures var parent := DocumentRule(t, c).value.parent;
            || (parent == Companies && t == Subscriptions && c == CompanyId)
            || (Attached(t) && (parent == SaleInvoices || parent == CreditNotes || parent == FixedExpenses || parent == Users))
  {
  }

  lemma MasterForwarded(t: Table, c: Column)
    requires MasterRule(t, c).Some? && MasterRule(t, c).value.onDelete == Restrict
    ensures ForwardRule(t, c).Some?
  {
  }

  lemma DocumentForwarded(t: Table, c: Column)
    requires DocumentRule(t, c).Some? && DocumentRule(t, c).value.onDelete == Restrict
    ensures ForwardRule(t, c).Some?
  {
  }

  lemma BaseRestrictIsForwarded(t: Table, c: Column)
    requires BaseRule(t, c).Some? && BaseRule(t, c).value.onDelete == Restrict
    ensures ForwardRule(t, c).Some?
  {
    if MasterRule(t, c).Some? { MasterForwarded(t, c); } else { DocumentForwarded(t, c); }
  }

  lemma BaseTables(t: Table, c: Column)
    requires BaseRule(t, c).Some?
    ensures t !in {InventoryShares, UserActivationTokens, PasswordResetTokens, TaxRates, Companies}
  {
  }

  lemma BaseParents(t: Table, c: Column)
    requires BaseRule(t, c).Some?
    ensures BaseRule(t, c).value.parent != Loans
  {
    if MasterRule(t, c).Some? { MasterParents(t, c); } else { DocumentParents(t, c); }
  }

  lemma BaseShallow(t: Table, c: Column)
    requires BaseRule(t, c).Some?
    ensures Shallow(Key(t, c), BaseRule(t, c).value)
  {
    if MasterRule(t, c).Some? { MasterShallow(t, c); } else { DocumentShallow(t, c); }
  }

  lemma BaseCompanyLink(t: Table)
    requires BaseRule(t, CompanyId).Some?
    ensures BaseRule(t, CompanyId).value.parent == Companies
    ensures BaseRule(t, CompanyId).value.onDelete == if t == Subscriptions then Cascade else Restrict
  {
    if MasterRule(t, CompanyId).Some? { MasterCompanyLink(t); } else { DocumentCompanyLink(t); }
  }

  lemma MasterCompanyLink(t: Table)
    requires MasterRule(t, CompanyId).Some?
    ensures MasterRule(t, CompanyId).value == Rule(Companies, Restrict) && t != Subscriptions
  {
  }

  lemma DocumentCompanyLink(t: Table)
    requires DocumentRule(t, CompanyId).Some?
    ensures DocumentRule(t, CompanyId).value == Rule(Companies, if t == Subscriptions then Cascade else Restrict)
  {
  }

  /** The tables whose rows are also deleted with a row that is not their company. */
  predicate Attached(t: Table) {
    match t
    case CompanyMembers | Subscriptions | SubscriptionPayments | PushSubscriptions | UserActivationTokens | PasswordResetTokens => true
    case ProductPrices | ComboComponents | InventoryShares | ProductAssistantProfiles | ProductSearchEmbeddings => true
    case SaleInvoiceLines | SalePayments | SaleCredits | SaleStatusHistory | CreditNoteLines | CorrectionSources => true
    case PurchaseLines | PurchasePayments | PurchaseCredits | FixedExpensePeriods | SalesAgentFollowUps => true
    case _ => false
  }

  /**
   A CASCADE key leads to the company of a row, or from an attached table; only the payments
   of subscriptions are attached to an attached table, and nothing is to them.
   */
  predicate Shallow(k: Key, rule: Rule) {
    rule.onDelete == Cascade ==>
      if rule.parent == Companies
      then k.column == CompanyId && k.child !in {InventoryShares, UserActivationTokens, PasswordResetTokens, TaxRates, Companies}
      else Attached(k.child) && (Attached(rule.parent) ==> rule.parent == Subscriptions && k.child == SubscriptionPayments)
  }

  lemma ForwardShallow(t: Table, c: Column)
    requires ForwardRule(t, c).Some?
    ensures Shallow(Key(t, c), ForwardRule(t, c).value)
  {
    ForwardFacts(t, c);
    BaseTables(t, c);
    if c == CompanyId { BaseCompanyLink(t); }
  }

  lemma LaterShallow(t: Table, c: Column)
    requires LaterRule(t, c).Some?
    ensures Shallow(Key(t, c), LaterRule(t, c).value)
  {
    if LaterRule(t, c).value.onDelete == Cascade {
      if LaterRule(t, c).value.parent == Companies { LaterCompanyKeys(t, c); } else { LaterAttached(t, c); }
    }
  }

  lemma LaterCompanyKeys(t: Table, c: Column)
    requires LaterRule(t, c).Some? && LaterRule(t, c).value == Rule(Companies, Cascade)
    ensures c == CompanyId && t !in {InventoryShares, UserActivationTokens, PasswordResetTokens, TaxRates, Companies}
  {
  }

  lemma LaterAttached(t: Table, c: Column)
    requires LaterRule(t, c).Some? && LaterRule(t, c).value.onDelete == Cascade && LaterRule(t, c).value.parent != Companies
    ensures Attached(t)
    ensures Attached(LaterRule(t, c).value.parent) ==> LaterRule(t, c).value.parent == Subscriptions && t == SubscriptionPayments
  {
  }

  ghost predicate ShortChains(cat: Catalog) {
    forall k :: k in cat ==> Shallow(k, cat[k])
  }

  lemma UpIsShort()
    ensures ShortChains(SchemaAfterUp())
  {
    forall k | k in SchemaAfterUp()
      ensures Shallow(k, SchemaAfterUp()[k])
    {
      if ForwardRule(k.child, k.column).Some? { ForwardShallow(k.child, k.column); } else { BaseShallow(k.child, k.column); }
    }
  }

  lemma LatestIsShort()
    ensures ShortChains(SchemaLatest())
  {
    UpIsShort();
    forall k | k in SchemaLatest()
      ensures Shallow(k, SchemaLatest()[k])
    {
      LatestAt(k);
      if LaterRule(k.child, k.column).Some? { LaterShallow(k.child, k.column); }
    }
  }

  lemma BeforeCompanyRule(t: Table)
    requires Key(t, CompanyId) in SchemaBefore()
    ensures SchemaBefore()[Key(t, CompanyId)] == Rule(Companies, if t == Subscriptions then Cascade else Restrict)
    ensures t !in {InventoryShares, UserActivationTokens, PasswordResetTokens, TaxRates}
  {
    BaseCompanyLink(t);
    BaseTables(t, CompanyId);
  }

  lemma ForwardFacts(t: Table, c: Column)
    requires ForwardRule(t, c).Some?
    ensures BaseRule(t, c) == Some(Rule(ForwardRule(t, c).value.parent, Restrict))
    ensures ForwardRule(t, c).value.onDelete == if c == CompanyId then Cascade else NoAction
  {
    ForwardActions(t, c);
    if MasterRule(t, c).Some? { ForwardMaster(t, c); } else { ForwardDocument(t, c); }
  }

  lemma ForwardActions(t: Table, c: Column)
    requires ForwardRule(t, c).Some?
    ensures ForwardRule(t, c).value.onDelete == if c == CompanyId then Cascade else NoAction
  {
  }

  lemma ForwardMaster(t: Table, c: Column)
    requires ForwardRule(t, c).Some? && MasterRule(t, c).Some?
    ensures BaseRule(t, c) == Some(Rule(ForwardRule(t, c).value.parent, Restrict))
  {
  }

  lemma ForwardDocument(t: Table, c: Column)
    requires ForwardRule(t, c).Some? && MasterRule(t, c).None?
    ensures BaseRule(t, c) == Some(Rule(ForwardRule(t, c).value.parent, Restrict))
  {
  }

  /** Where RESTRICT came back: from withheld rows to their companies, and from advances and loans to customers. */
  predicate RestrictPlace(k: Key, rule: Rule) {
    || rule.parent == TaxRates
    || (rule.parent == Customers && (k == Key(Loans, CustomerId) || k == Key(CustomerAdvances, CustomerId)))
    || (rule.parent == Companies && Withheld(k.child) &&
        if k.child == InventoryShares then k.column in {SourceCompanyId, TargetCompanyId} else k.column == CompanyId)
  }

  lemma LaterRestricts(t: Table, c: Column)
    requires LaterRule(t, c).Some? && LaterRule(t, c).value.onDelete == Restrict
    ensures RestrictPlace(Key(t, c), LaterRule(t, c).value)
  {
  }

  lemma LaterParents(t: Table, c: Column)
    requires LaterRule(t, c).Some?
    ensures LaterRule(t, c).value.parent != Loans
  {
  }

  lemma LaterCompanyLink(t: Table)
    requires LaterRule(t, CompanyId).Some?
    ensures LaterRule(t, CompanyId).value == Rule(Companies, if Withheld(t) then Restrict else Cascade)
  {
  }

  lemma WithheldIsNew(t: Table)
    requires Withheld(t) && TenantColumn(t) == Some(CompanyId)
    ensures LaterRule(t, CompanyId).Some?
  {
  }

  lemma ShareLinks()
    ensures LaterRule(InventoryShares, SourceCompanyId) == Some(Rule(Companies, Restrict))
    ensures LaterRule(InventoryShares, TargetCompanyId) == Some(Rule(Companies, Restrict))
  {
  }

  lemma TokenLinks()
    ensures LaterRule(UserActivationTokens, UserId) == Some(Rule(Users, Cascade))
    ensures LaterRule(PasswordResetTokens, UserId) == Some(Rule(Users, Cascade))
  {
  }

  lemma LoanLink()
    ensures LaterRule(Loans, CustomerId) == Some(Rule(Customers, Restrict))
  {
  }

  lemma EveryTenantTableIsLinked(t: Table)
    requires t == Users || TenantColumn(t) == Some(CompanyId)
    ensures BaseRule(t, CompanyId).Some? || LaterRule(t, CompanyId).Some?
  {
  }

  /** No RESTRICT anywhere, and every company link is CASCADE. */
  ghost predicate Sweepable(cat: Catalog) {
    && (forall k :: k in cat ==> cat[k].onDelete != Restrict)
    && (forall k :: k in cat && k.column == CompanyId ==> cat[k] == Rule(Companies, Cascade))
    && (forall k :: k in cat ==>
          k.child !in {InventoryShares, UserActivationTokens, PasswordResetTokens, TaxRates, Companies})
  }

  /** What `up` was for: it leaves no RESTRICT in the schema and ties every table to its company by CASCADE. */
  lemma UpMakesSweepable()
    ensures Sweepable(SchemaAfterUp())
  {
    forall k | k in SchemaAfterUp()
      ensures SchemaAfterUp()[k].onDelete != Restrict
      ensures k.column == CompanyId ==> SchemaAfterUp()[k] == Rule(Companies, Cascade)
      ensures k.child !in {InventoryShares, UserActivationTokens, PasswordResetTokens, TaxRates, Companies}
    {
      UpAt(k);
    }
  }

  lemma UpAt(k: Key)
    requires k in SchemaAfterUp()
    ensures SchemaAfterUp()[k].onDelete != Restrict
    ensures SchemaAfterUp()[k].parent != Loans
    ensures k.column == CompanyId ==> SchemaAfterUp()[k] == Rule(Companies, Cascade)
    ensures k.child !in {InventoryShares, UserActivationTokens, PasswordResetTokens, TaxRates, Companies}
  {
    if ForwardRule(k.child, k.column).Some? {
      ForwardFacts(k.child, k.column);
    } else if BaseRule(k.child, k.column).value.onDelete == Restrict {
      BaseRestrictIsForwarded(k.child, k.column);
    }
    BaseTables(k.child, k.column);
    BaseParents(k.child, k.column);
    if k.column == CompanyId { BaseCompanyLink(k.child); }
  }

  predicate CompanyLinked(cat: Catalog, t: Table) {
    Key(t, CompanyId) in cat && cat[Key(t, CompanyId)] == Rule(Companies, if Withheld(t) then Restrict else Cascade)
  }

  predicate OtherLinks(cat: Catalog) {
    && Key(InventoryShares, SourceCompanyId) in cat && cat[Key(InventoryShares, SourceCompanyId)] == Rule(Companies, Restrict)
    && Key(InventoryShares, TargetCompanyId) in cat && cat[Key(InventoryShares, TargetCompanyId)] == Rule(Companies, Restrict)
    && Key(UserActivationTokens, UserId) in cat && cat[Key(UserActivationTokens, UserId)] == Rule(Users, Cascade)
    && Key(PasswordResetTokens, UserId) in cat && cat[Key(PasswordResetTokens, UserId)] == Rule(Users, Cascade)
    && Key(Loans, CustomerId) in cat && cat[Key(Loans, CustomerId)] == Rule(Customers, Restrict)
  }

  /** The shape of the latest schema: which RESTRICT keys came back after `up`. */
  ghost predicate Patched(cat: Catalog) {
    && (forall k :: k in cat && cat[k].onDelete == Restrict ==> RestrictPlace(k, cat[k]))
    && (forall k :: k in cat ==> cat[k].parent != Loans)
    && (forall t :: t == Users || TenantColumn(t) == Some(CompanyId) ==> CompanyLinked(cat, t))
    && OtherLinks(cat)
  }

  lemma LatestAt(k: Key)
    ensures k in SchemaLatest() <==> LaterRule(k.child, k.column).Some? || k in SchemaAfterUp()
    ensures k in SchemaLatest() && LaterRule(k.child, k.column).Some? ==>
              SchemaLatest()[k] == LaterRule(k.child, k.column).value
    ensures k in SchemaLatest() && LaterRule(k.child, k.column).None? ==> SchemaLatest()[k] == SchemaAfterUp()[k]
    ensures BaseRule(k.child, k.column).Some? ==> k in SchemaAfterUp()
  {
  }

  lemma LatestRules(k: Key)
    requires k in SchemaLatest()
    ensures SchemaLatest()[k].onDelete == Restrict ==> RestrictPlace(k, SchemaLatest()[k])
    ensures SchemaLatest()[k].parent != Loans
  {
    LatestAt(k);
    if LaterRule(k.child, k.column).Some? {
      LaterParents(k.child, k.column);
      if SchemaLatest()[k].onDelete == Restrict { LaterRestricts(k.child, k.column); }
    } else {
      UpAt(k);
    }
  }

  lemma LatestCompanyLink(t: Table)
    requires t == Users || TenantColumn(t) == Some(CompanyId)
    ensures CompanyLinked(SchemaLatest(), t)
  {
    EveryTenantTableIsLinked(t);
    LatestAt(Key(t, CompanyId));
    if LaterRule(t, CompanyId).Some? {
      LaterCompanyLink(t);
    } else {
      if Withheld(t) { WithheldIsNew(t); }
      UpAt(Key(t, CompanyId));
    }
  }

  /** The later migrations brought back RESTRICT exactly in these places. */
  lemma LatestIsPatched()
    ensures Patched(SchemaLatest())
  {
    forall k | k in SchemaLatest()
      ensures SchemaLatest()[k].onDelete == Restrict ==> RestrictPlace(k, SchemaLatest()[k])
      ensures SchemaLatest()[k].parent != Loans
    {
      LatestRules(k);
    }
    forall t | t == Users || TenantColumn(t) == Some(CompanyId)
      ensures CompanyLinked(SchemaLatest(), t)
    {
      LatestCompanyLink(t);
    }
    LatestOtherLinks();
  }

  lemma LatestOtherLinks()
    ensures OtherLinks(SchemaLatest())
  {
    ShareLinks();
    TokenLinks();
    LoanLink();
    LatestAt(Key(InventoryShares, SourceCompanyId));
    LatestAt(Key(InventoryShares, TargetCompanyId));
    LatestAt(Key(UserActivationTokens, UserId));
    LatestAt(Key(PasswordResetTokens, UserId));
    LatestAt(Key(Loans, CustomerId));
  }

  lemma LatestLoanRules()
    ensures forall k :: k in SchemaLatest() ==> SchemaLatest()[k].parent != Loans
    ensures Key(Loans, CustomerId) in SchemaLatest() && SchemaLatest()[Key(Loans, CustomerId)] == Rule(Customers, Restrict)
  {
    forall k | k in SchemaLatest() ensures SchemaLatest()[k].parent != Loans {
      LatestRules(k);
    }
    LoanLink();
    LatestAt(Key(Loans, CustomerId));
  }

  lemma LatestLoanCompany()
    ensures Key(Loans, CompanyId) in SchemaLatest() && SchemaLatest()[Key(Loans, CompanyId)] == Rule(Companies, Cascade)
    ensures Key(Customers, CompanyId) in SchemaLatest() && SchemaLatest()[Key(Customers, CompanyId)] == Rule(Companies, Cascade)
  {
    LatestIsPatched();
    PatchedLoanCompany(SchemaLatest());
  }

  lemma PatchedLoanCompany(cat: Catalog)
    requires Patched(cat)
    ensures Key(Loans, CompanyId) in cat && cat[Key(Loans, CompanyId)] == Rule(Companies, Cascade)
    ensures Key(Customers, CompanyId) in cat && cat[Key(Customers, CompanyId)] == Rule(Companies, Cascade)
  {
    assert CompanyLinked(cat, Loans) && CompanyLinked(cat, Customers);
  }

  /** A sale line holds its product by NO ACTION, and goes with its company and its invoice. */
  ghost predicate SaleLineKeys(cat: Catalog) {
    && Key(SaleInvoiceLines, ProductId) in cat && cat[Key(SaleInvoiceLines, ProductId)] == Rule(Products, NoAction)
    && forall k :: k in cat && k.child == SaleInvoiceLines && cat[k].onDelete == Cascade && cat[k].parent != Companies ==>
         k.column == SaleInvoiceId && cat[k].parent == SaleInvoices
  }

  lemma SaleLineRules(c: Column)
    ensures ForwardRule(SaleInvoiceLines, ProductId) == Some(Rule(Products, NoAction))
    ensures LaterRule(SaleInvoiceLines, c).Some? ==> c == ProductPriceId && LaterRule(SaleInvoiceLines, c).value.onDelete == SetNull
    ensures ForwardRule(SaleInvoiceLines, c).Some? && ForwardRule(SaleInvoiceLines, c).value.onDelete == Cascade ==>
              ForwardRule(SaleInvoiceLines, c).value.parent == Companies
  {
  }

  lemma SaleLineBase(c: Column)
    requires BaseRule(SaleInvoiceLines, c).Some? && BaseRule(SaleInvoiceLines, c).value.onDelete == Cascade
    ensures c == SaleInvoiceId && BaseRule(SaleInvoiceLines, c).value.parent == SaleInvoices
  {
  }

  lemma LatestSaleLineKeys()
    ensures SaleLineKeys(SchemaLatest())
  {
    SaleLineRules(ProductId);
    LatestAt(Key(SaleInvoiceLines, ProductId));
    forall k | k in SchemaLatest() && k.child == SaleInvoiceLines && SchemaLatest()[k].onDelete == Cascade && SchemaLatest()[k].parent != Companies
      ensures k.column == SaleInvoiceId && SchemaLatest()[k].parent == SaleInvoices
    {
      SaleLineRules(k.column);
      LatestAt(k);
      if BaseRule(k.child, k.column).Some? && BaseRule(k.child, k.column).value.onDelete == Cascade { SaleLineBase(k.column); }
    }
  }
}
