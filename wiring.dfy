/**
 * Start-up wiring: the audit and authentication services need each other, so the audit
 * service is built first and is handed the authentication service afterwards.
 */
module Wiring {
  import opened Wrappers
  import opened ProductRepository
  import opened UserRepository
  import opened AuditRepository
  import opened Services
  import opened Catalog

  /**
   * Builds the three services over the given stores. Afterwards the audit service attributes
   * entries through the authentication service, nobody is logged in, so entries go to the
   * default user, and the product service starts with an empty, coherent cache.
   */
  method Bootstrap(products: InMemoryProductRepository, users: InMemoryUserRepository, audit: InMemoryAuditRepository)
    returns (auditService: AuditService, authService: AuthService, productService: ProductService)
    requires products.Valid()
    ensures auditService.auditRepository == audit && auditService.authService == authService
    ensures authService.userRepository == users && authService.auditService == auditService
    ensures authService.currentUser == None && auditService.CurrentActor() == DEFAULT_AUDIT_USERNAME
    ensures productService.productRepository == products && productService.auditService == auditService
    ensures productService.searchCache == map[] && productService.Valid()
    ensures audit.auditLog == old(audit.auditLog) && products.storage == old(products.storage)
  {
    auditService := new AuditService(audit);
    authService := new AuthService(users, auditService);
    auditService.SetAuthService(authService);
    productService := new ProductService(products, auditService);
  }
}
